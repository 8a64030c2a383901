/** What becomes of the units' own settings in a merge (domain_portfolio.py,
    merge_group): a unit keeps its registrar and its contact and takes those of
    the unit folded into it only where it has none; its scan interval is never
    taken over. */
module MergeFields {
  import opened Common
  import opened Forest
  import opened Merge
  import opened MergeSteps
  import opened MergeTheorem

  /** One setting of all units. */
  type Values<V> = map<Id, Option<V>>

  ghost function Registrars(units: Units): Values<string> {
    map u | u in units :: units[u].registrar
  }

  ghost function Contacts(units: Units): Values<nat> {
    map u | u in units :: units[u].contact
  }

  /** The two units stand at the same rewritten path. */
  ghost predicate SamePlace(p: Paths, r: Rewrite, u: Id, v: Id) {
    u in p && v in p && Canon(r, p[u]) == Canon(r, p[v])
  }

  ghost predicate GainedFrom<V>(o: Values<V>, p: Paths, n: Values<V>, r: Rewrite, u: Id)
    requires u in n
  {
    exists v :: v in o && v !in n && SamePlace(p, r, u, v) && o[v] == n[u]
  }

  ghost predicate LivesOn<V>(p: Paths, n: Values<V>, r: Rewrite, v: Id) {
    exists u :: u in n && SamePlace(p, r, u, v) && n[u].Some?
  }

  /** Who is left keeps a value of its own; a value gained was that of a unit
      that is gone from the same place; where a unit with a value is gone, its
      place still has one. */
  ghost predicate Inherits<V>(o: Values<V>, p: Paths, n: Values<V>, r: Rewrite) {
    && n.Keys <= o.Keys
    && (forall u | u in n && o[u].Some? :: n[u] == o[u])
    && (forall u | u in n && o[u].None? && n[u].Some? :: GainedFrom(o, p, n, r, u))
    && (forall v | v in o && v !in n && o[v].Some? :: LivesOn(p, n, r, v))
  }

  ghost predicate PlacesKept(p: Paths, q: Paths, r: Rewrite) {
    q.Keys <= p.Keys && forall u | u in q :: Canon(r, q[u]) == Canon(r, p[u])
  }

  lemma GainedTrans<V>(o: Values<V>, p: Paths, n: Values<V>, q: Paths, m: Values<V>, r: Rewrite, u: Id)
    requires Inherits(o, p, n, r) && Inherits(n, q, m, r) && PlacesKept(p, q, r)
    requires u in m && o[u].None? && m[u].Some?
    ensures GainedFrom(o, p, m, r, u)
  {
    hide Canon;
    if n[u].Some? {
      var v :| v in o && v !in n && SamePlace(p, r, u, v) && o[v] == n[u];
    } else {
      assert GainedFrom(n, q, m, r, u);
      var v :| v in n && v !in m && SamePlace(q, r, u, v) && n[v] == m[u];
      assert SamePlace(p, r, u, v);
      if o[v].None? {
        assert GainedFrom(o, p, n, r, v);
        var w :| w in o && w !in n && SamePlace(p, r, v, w) && o[w] == n[v];
        assert SamePlace(p, r, u, w);
      }
    }
  }

  lemma LivesOnTrans<V>(o: Values<V>, p: Paths, n: Values<V>, q: Paths, m: Values<V>, r: Rewrite, v: Id)
    requires Inherits(o, p, n, r) && Inherits(n, q, m, r) && PlacesKept(p, q, r) && q.Keys == n.Keys
    requires v in o && v in p && v !in m && o[v].Some?
    ensures LivesOn(p, m, r, v)
  {
    hide Canon;
    var u := v;
    if v !in n {
      assert LivesOn(p, n, r, v);
      u :| u in n && SamePlace(p, r, u, v) && n[u].Some?;
    }
    assert SamePlace(p, r, u, v);
    if u !in m {
      assert LivesOn(q, m, r, u);
      var w :| w in m && SamePlace(q, r, w, u) && m[w].Some?;
      assert SamePlace(p, r, w, v);
    }
  }

  lemma InheritsTrans<V>(o: Values<V>, p: Paths, n: Values<V>, q: Paths, m: Values<V>, r: Rewrite)
    requires Inherits(o, p, n, r) && Inherits(n, q, m, r) && PlacesKept(p, q, r) && q.Keys == n.Keys && p.Keys == o.Keys
    ensures Inherits(o, p, m, r)
  {
    hide PlacesKept, GainedFrom, LivesOn;
    forall u | u in m && o[u].None? && m[u].Some? ensures GainedFrom(o, p, m, r, u) {
      GainedTrans(o, p, n, q, m, r, u);
    }
    forall v | v in o && v !in m && o[v].Some? ensures LivesOn(p, m, r, v) { LivesOnTrans(o, p, n, q, m, r, v); }
  }

  ghost predicate FieldsKept(o: Units, p: Paths, n: Units, r: Rewrite) {
    && Inherits(Registrars(o), p, Registrars(n), r) && Inherits(Contacts(o), p, Contacts(n), r)
    && forall u | u in n :: u in o && n[u].minutes == o[u].minutes
  }

  lemma FieldsTrans(o: Units, p: Paths, n: Units, q: Paths, m: Units, r: Rewrite)
    requires FieldsKept(o, p, n, r) && FieldsKept(n, q, m, r) && PlacesKept(p, q, r) && q.Keys == n.Keys
      && p.Keys == o.Keys
    ensures FieldsKept(o, p, m, r)
  {
    hide Inherits, PlacesKept;
    InheritsTrans(Registrars(o), p, Registrars(n), q, Registrars(m), r);
    InheritsTrans(Contacts(o), p, Contacts(n), q, Contacts(m), r);
  }

  ghost predicate FieldInv(o: Org, line: Lineage, n: Org, src: Id, dst: Id, r: Rewrite) {
    Sound(o, line, src, dst, r) ==> FieldsKept(o.units, PathsOf(o.units, line), n.units, r)
  }

  lemma SameFields(o: Units, p: Paths, n: Units, m: Units, r: Rewrite)
    requires FieldsKept(o, p, n, r) && m.Keys == n.Keys
    requires forall u | u in n ::
      m[u].registrar == n[u].registrar && m[u].contact == n[u].contact && m[u].minutes == n[u].minutes
    ensures FieldsKept(o, p, m, r)
  {
    assert Registrars(m) == Registrars(n);
    assert Contacts(m) == Contacts(n);
  }

  lemma FieldStart(o: Org, line: Lineage, n: Org, src: Id, dst: Id, r: Rewrite)
    requires n.units == o.units
    ensures FieldInv(o, line, n, src, dst, r)
  {
    hide Sound, PathsOf;
  }

  lemma FieldMove(o: Org, line: Lineage, n: Org, src: Id, dst: Id, r: Rewrite, c: Id)
    requires FieldInv(o, line, n, src, dst, r) && c in n.units
    ensures FieldInv(o, line, n.(units := WithParent(n.units, c, Some(dst))), src, dst, r)
  {
    hide Sound, PathsOf, FieldsKept;
    if Sound(o, line, src, dst, r) {
      SoundLines(o, line, src, dst, r);
      SameFields(o.units, PathsOf(o.units, line), n.units, WithParent(n.units, c, Some(dst)), r);
    }
  }

  lemma SoundLines(o: Org, line: Lineage, src: Id, dst: Id, r: Rewrite)
    requires Sound(o, line, src, dst, r)
    ensures Lines(o.units, line)
  {
  }

  lemma KeptPlaces(o: Org, line: Lineage, n: Org, after: Lineage, r: Rewrite)
    requires Kept(o, line, n, after, r)
    ensures Lines(o.units, line) && Lines(n.units, after)
    ensures PlacesKept(PathsOf(o.units, line), PathsOf(n.units, after), r)
    ensures PathsOf(o.units, line).Keys == o.units.Keys && PathsOf(n.units, after).Keys == n.units.Keys
  {
    hide *;
    KeptSim(o, line, n, after, r);
    SimPlaces(o, PathsOf(o.units, line), n, PathsOf(n.units, after), r);
  }

  lemma SimPlaces(o: Org, p: Paths, n: Org, q: Paths, r: Rewrite)
    requires Sim(o, p, n, q, r)
    ensures PlacesKept(p, q, r) && p.Keys == o.units.Keys && q.Keys == n.units.Keys
  {
    hide HomesKept, AllRepresented, Canon, Rooted, HomesThere;
    forall u | u in q ensures Canon(r, q[u]) == Canon(r, p[u]) { assert UnitKept(o.units, p, n.units, q, r, u); }
  }

  lemma FieldTwin(o: Org, line: Lineage, n: Org, after: Lineage, src: Id, dst: Id, todo: set<Id>, r: Rewrite, c: Id,
                  twin: Id, m: Org)
    requires FoldInv(o, line, n, after, src, dst, todo, r) && c in todo && c in n.units
    requires FieldInv(o, line, n, src, dst, r) && FieldInv(n, after, m, c, twin, r)
    requires twin in n.units && n.units[twin].parent == Some(dst) && n.units[twin].name == n.units[c].name
    ensures FieldInv(o, line, m, src, dst, r)
  {
    ChildOfSource(o.units, line, n.units, after, src, dst, todo, c);
    hide Frame, Kept, Sound, Cleared, FieldsKept, PathsOf, PlacesKept, Lines;
    if Sound(o, line, src, dst, r) {
      TwinPaired(n, after, src, dst, r, c, twin);
      SoundLines(n, after, c, twin, r);
      KeptPlaces(o, line, n, after, r);
      FieldsTrans(o.units, PathsOf(o.units, line), n.units, PathsOf(n.units, after), m.units, r);
    }
  }

  lemma InheritsOne<V>(n: Values<V>, q: Paths, m: Values<V>, src: Id, dst: Id, r: Rewrite)
    requires src in n && dst in n && src != dst && SamePlace(q, r, dst, src)
    requires m.Keys == n.Keys - {src} && m[dst] == n[dst].Or(n[src]) && forall u | u in m && u != dst :: m[u] == n[u]
    ensures Inherits(n, q, m, r)
  {
    hide Canon;
  }

  lemma EndFields(n: Units, q: Paths, src: Id, dst: Id, r: Rewrite)
    requires src in n && dst in n && src != dst && SamePlace(q, r, dst, src)
    ensures FieldsKept(n, q, Inherited(n, src, dst) - {src}, r)
  {
    hide SamePlace, Inherits;
    var m := Inherited(n, src, dst) - {src};
    InheritsOne(Registrars(n), q, Registrars(m), src, dst, r);
    InheritsOne(Contacts(n), q, Contacts(m), src, dst, r);
  }

  lemma SoundPlace(n: Org, after: Lineage, src: Id, dst: Id, r: Rewrite)
    requires Sound(n, after, src, dst, r)
    ensures Lines(n.units, after) && src != dst && SamePlace(PathsOf(n.units, after), r, dst, src)
  {
    SourceNotTarget(n, after, src, dst, r);
    TargetOut(n, after, r, src, dst);
  }

  lemma FieldEnd(o: Org, line: Lineage, n: Org, after: Lineage, src: Id, dst: Id, r: Rewrite)
    requires FoldInv(o, line, n, after, src, dst, {}, r) && FieldInv(o, line, n, src, dst, r)
    ensures src in n.units && dst in n.units
    ensures FieldInv(o, line, n.(units := Inherited(n.units, src, dst) - {src}), src, dst, r)
  {
    FrameMembers(o.units, line, n.units, after, src, dst, {});
    hide Frame, Kept, Sound, Cleared, FieldsKept, PathsOf, PlacesKept, Lines, SamePlace, Inherited;
    if Sound(o, line, src, dst, r) {
      SoundPlace(n, after, src, dst, r);
      EndFields(n.units, PathsOf(n.units, after), src, dst, r);
      KeptPlaces(o, line, n, after, r);
      FieldsTrans(o.units, PathsOf(o.units, line), n.units, PathsOf(n.units, after),
                  Inherited(n.units, src, dst) - {src}, r);
    }
  }

  // ---------------------------------------------------------- in a whole merge

  /** v stood where u ends: the unit folded into it. */
  ghost predicate FoldedInto(o: Units, line: Lineage, r: Rewrite, u: Id, v: Id)
    requires Lines(o, line) && u in o
  {
    v in o && v != u && Canon(r, PathOf(o, line, v)) == Canon(r, PathOf(o, line, u))
  }

  /** What a unit that is left is set to. */
  ghost predicate Settled(o: Units, line: Lineage, n: Units, r: Rewrite, u: Id)
    requires Lines(o, line) && u in o && u in n
  {
    && n[u].minutes == o[u].minutes
    && (forall v | FoldedInto(o, line, r, u, v) ::
          n[u].registrar == o[u].registrar.Or(o[v].registrar) && n[u].contact == o[u].contact.Or(o[v].contact))
    && ((forall v | v in o :: !FoldedInto(o, line, r, u, v)) ==>
          n[u].registrar == o[u].registrar && n[u].contact == o[u].contact)
  }

  /** At most two paths are rewritten to the same one. */
  lemma TwoPaths(r: Rewrite, x: Path, y: Path, z: Path)
    requires Canon(r, x) == Canon(r, y) == Canon(r, z) && x != y && x != z
    ensures y == z
  {
    if r.from <= x && r.from <= y { SameRest(r, x, y); }
    if r.from <= x && r.from <= z { SameRest(r, x, z); }
    if r.from <= y && r.from <= z { SameRest(r, y, z); }
  }

  lemma SameRest(r: Rewrite, x: Path, y: Path)
    requires r.from <= x && r.from <= y && Canon(r, x) == Canon(r, y)
    ensures x == y
  {
    assert x[|r.from|..] == Canon(r, x)[|r.to|..] == y[|r.from|..];
    assert x == r.from + x[|r.from|..] && y == r.from + y[|r.from|..];
  }

  lemma ThirdIsSecond(o: Org, line: Lineage, r: Rewrite, u: Id, v: Id, w: Id)
    requires Ordered(o) && Lines(o.units, line) && u in o.units
    requires FoldedInto(o.units, line, r, u, v) && FoldedInto(o.units, line, r, u, w)
    ensures v == w
  {
    hide Ordered, Lines, Canon, PathOf;
    var (x, y, z) := (PathOf(o.units, line, u), PathOf(o.units, line, v), PathOf(o.units, line, w));
    if x == y { OneAtPath(o, line, u, v); }
    if x == z { OneAtPath(o, line, u, w); }
    TwoPaths(r, x, y, z);
    OneAtPath(o, line, v, w);
  }

  /** Among the units that are left nobody shares a place. */
  lemma LeftApart(o: Org, line: Lineage, n: Org, after: Lineage, r: Rewrite, u: Id, v: Id)
    requires Conserved(o, line, n, after, r) && u in n.units && v in n.units && u in o.units && v in o.units
      && Lines(o.units, line)
    requires Canon(r, PathOf(o.units, line, v)) == Canon(r, PathOf(o.units, line, u))
    ensures u == v
  {
    hide Canon, HomeMoved, Stands, Ordered, PathOf, Lines;
    OneAtPath(n, after, u, v);
  }

  /** One setting of a unit left, with the unit folded into it. */
  lemma SettledWith<V>(o: Values<V>, p: Paths, n: Values<V>, r: Rewrite, u: Id, v: Id)
    requires Inherits(o, p, n, r) && u in n && v in o && v !in n && SamePlace(p, r, u, v)
    requires forall w | w in o && SamePlace(p, r, u, w) :: w == u || w == v
    ensures n[u] == o[u].Or(o[v])
  {
    hide Canon;
    if o[u].None? && o[v].Some? {
      assert LivesOn(p, n, r, v);
      var w :| w in n && SamePlace(p, r, w, v) && n[w].Some?;
      assert SamePlace(p, r, u, w);
    }
    if o[u].None? && n[u].Some? {
      assert GainedFrom(o, p, n, r, u);
    }
  }

  lemma SettledAlone<V>(o: Values<V>, p: Paths, n: Values<V>, r: Rewrite, u: Id)
    requires Inherits(o, p, n, r) && u in n
    requires forall w | w in o && SamePlace(p, r, u, w) :: w == u
    ensures n[u] == o[u]
  {
    hide Canon;
  }

  lemma PlaceIsFolded(o: Org, line: Lineage, r: Rewrite, u: Id, v: Id)
    requires Lines(o.units, line) && u in o.units
    ensures v in o.units && SamePlace(PathsOf(o.units, line), r, u, v) <==> v == u || FoldedInto(o.units, line, r, u, v)
  {
    hide Canon, PathOf, Lines;
    PathAt(o.units, line, u);
    PathAt(o.units, line, v);
  }

  lemma SettledPair(o: Org, line: Lineage, n: Org, after: Lineage, r: Rewrite, u: Id, v: Id)
    requires Ordered(o) && Lines(o.units, line) && Conserved(o, line, n, after, r)
    requires FieldsKept(o.units, PathsOf(o.units, line), n.units, r) && u in n.units && u in o.units
    requires FoldedInto(o.units, line, r, u, v)
    ensures n.units[u].registrar == o.units[u].registrar.Or(o.units[v].registrar)
    ensures n.units[u].contact == o.units[u].contact.Or(o.units[v].contact)
  {
    var p := PathsOf(o.units, line);
    if v in n.units { LeftApart(o, line, n, after, r, u, v); }
    hide Ordered, Lines, Conserved, PathsOf, FoldedInto, SamePlace, Inherits;
    PlaceIsFolded(o, line, r, u, v);
    forall w | w in o.units && SamePlace(p, r, u, w) ensures w == u || w == v {
      PlaceIsFolded(o, line, r, u, w);
      if w != u { ThirdIsSecond(o, line, r, u, v, w); }
    }
    SettledWith(Registrars(o.units), p, Registrars(n.units), r, u, v);
    SettledWith(Contacts(o.units), p, Contacts(n.units), r, u, v);
  }

  lemma SettledSingle(o: Org, line: Lineage, n: Org, r: Rewrite, u: Id)
    requires Lines(o.units, line) && FieldsKept(o.units, PathsOf(o.units, line), n.units, r) && u in n.units
      && u in o.units
    requires forall v | v in o.units :: !FoldedInto(o.units, line, r, u, v)
    ensures n.units[u].registrar == o.units[u].registrar && n.units[u].contact == o.units[u].contact
  {
    var p := PathsOf(o.units, line);
    hide Lines, PathsOf, FoldedInto, SamePlace, Inherits;
    forall w | w in o.units && SamePlace(p, r, u, w) ensures w == u { PlaceIsFolded(o, line, r, u, w); }
    SettledAlone(Registrars(o.units), p, Registrars(n.units), r, u);
    SettledAlone(Contacts(o.units), p, Contacts(n.units), r, u);
  }

  /** After a merge in which nothing repeats, every unit left has its own
      registrar and contact, or else those of the one unit folded into it. */
  lemma MergeSettles(o: Org, line: Lineage, n: Org, after: Lineage, s: Id, t: Id, u: Id)
    requires Ordered(o) && Lines(o.units, line) && s in o.units && t in o.units && s !in line[t]
    requires !Repeats(o.units, line, s, t) && u in n.units
    requires var r := Rewrite(PathOf(o.units, line, s), PathOf(o.units, line, t));
      Folded(o, line, n, after, s, t, r) && FieldInv(o, line, n, s, t, r)
    ensures u in o.units
    ensures Settled(o.units, line, n.units, Rewrite(PathOf(o.units, line, s), PathOf(o.units, line, t)), u)
  {
    var r := Rewrite(PathOf(o.units, line, s), PathOf(o.units, line, t));
    hide *;
    MergeConservesIff(o, line, n, after, s, t);
    MergeFieldsKept(o, line, n, s, t);
    ConservedMembers(o, line, n, after, r, u);
    forall v | FoldedInto(o.units, line, r, u, v)
      ensures n.units[u].registrar == o.units[u].registrar.Or(o.units[v].registrar)
           && n.units[u].contact == o.units[u].contact.Or(o.units[v].contact)
    {
      SettledPair(o, line, n, after, r, u, v);
    }
    if forall v | v in o.units :: !FoldedInto(o.units, line, r, u, v) { SettledSingle(o, line, n, r, u); }
    FieldsMinutes(o.units, PathsOf(o.units, line), n.units, r, u);
    SettledFrom(o.units, line, n.units, r, u);
  }

  lemma ConservedMembers(o: Org, line: Lineage, n: Org, after: Lineage, r: Rewrite, u: Id)
    requires Conserved(o, line, n, after, r) && u in n.units
    ensures u in o.units
  {
  }

  lemma FieldsMinutes(o: Units, p: Paths, n: Units, r: Rewrite, u: Id)
    requires FieldsKept(o, p, n, r) && u in n
    ensures u in o && n[u].minutes == o[u].minutes
  {
  }

  lemma SettledFrom(o: Units, line: Lineage, n: Units, r: Rewrite, u: Id)
    requires Lines(o, line) && u in o && u in n && n[u].minutes == o[u].minutes
    requires forall v | FoldedInto(o, line, r, u, v) ::
      n[u].registrar == o[u].registrar.Or(o[v].registrar) && n[u].contact == o[u].contact.Or(o[v].contact)
    requires (forall v | v in o :: !FoldedInto(o, line, r, u, v)) ==>
      n[u].registrar == o[u].registrar && n[u].contact == o[u].contact
    ensures Settled(o, line, n, r, u)
  {
    hide FoldedInto, Lines;
  }

  lemma MergeFieldsKept(o: Org, line: Lineage, n: Org, s: Id, t: Id)
    requires Ordered(o) && Lines(o.units, line) && s in o.units && t in o.units && s !in line[t]
    requires !Repeats(o.units, line, s, t)
    requires FieldInv(o, line, n, s, t, Rewrite(PathOf(o.units, line, s), PathOf(o.units, line, t)))
    ensures FieldsKept(o.units, PathsOf(o.units, line), n.units,
                       Rewrite(PathOf(o.units, line, s), PathOf(o.units, line, t)))
  {
    hide Safe, PathOf, PathsOf, Lines, Ordered, Repeats, FieldsKept;
    SafeIff(o, line, s, t);
    PathAt(o.units, line, s);
    PathAt(o.units, line, t);
    CanonOfSource(Rewrite(PathOf(o.units, line, s), PathOf(o.units, line, t)));
  }
}
