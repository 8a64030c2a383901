/** Versions and affected ranges (cve_feed.py).

    A version is a tuple of numbers, compared with zero padding; a range is
    an exact version or an interval. The order is proved to be total,
    transitive and dense, which is what the decisions on ranges rest on. */
module CveVersions {

  type Version = seq<nat>

  // --------------------------------------------------------------- the order

  /** The number at a position; past the end it is the padding. */
  function At(v: Version, i: nat): nat {
    if i < |v| then v[i] else 0
  }

  function Width(a: Version, b: Version): nat {
    if |a| <= |b| then |b| else |a|
  }

  function CmpFrom(a: Version, b: Version, i: nat, width: nat): (c: int)
    requires i <= width
    ensures -1 <= c <= 1
    decreases width - i
  {
    if i == width then 0
    else if At(a, i) < At(b, i) then -1
    else if At(a, i) > At(b, i) then 1
    else CmpFrom(a, b, i + 1, width)
  }

  /** -1, 0 or 1: both padded to the same width, then number by number. */
  function Cmp(a: Version, b: Version): int {
    CmpFrom(a, b, 0, Width(a, b))
  }

  lemma {:induction false} CmpWider(a: Version, b: Version, i: nat, narrow: nat, wide: nat)
    requires i <= narrow <= wide && Width(a, b) <= narrow
    ensures CmpFrom(a, b, i, wide) == CmpFrom(a, b, i, narrow)
    decreases wide - i
  {
    if i < narrow { CmpWider(a, b, i + 1, narrow, wide); }
    else if i < wide { CmpWider(a, b, i + 1, wide, wide); CmpPadding(a, b, i, wide); }
  }

  lemma {:induction false} CmpPadding(a: Version, b: Version, i: nat, width: nat)
    requires Width(a, b) <= i <= width
    ensures CmpFrom(a, b, i, width) == 0
    decreases width - i
  {
    if i < width { CmpPadding(a, b, i + 1, width); }
  }

  lemma {:induction false} CmpFromTransitive(a: Version, b: Version, c: Version, i: nat, width: nat)
    requires i <= width
    ensures CmpFrom(a, b, i, width) == -CmpFrom(b, a, i, width)
    ensures CmpFrom(a, b, i, width) <= 0 && CmpFrom(b, c, i, width) <= 0 ==>
      CmpFrom(a, c, i, width) <= 0
      && (CmpFrom(a, c, i, width) == 0 <==> CmpFrom(a, b, i, width) == 0 == CmpFrom(b, c, i, width))
    decreases width - i
  {
    if i < width { CmpFromTransitive(a, b, c, i + 1, width); }
  }

  /** The comparison is a total preorder: turning it round changes its sign,
      and it is transitive, strictly so unless both steps are ties. */
  lemma CmpOrder(a: Version, b: Version, c: Version)
    ensures Cmp(a, b) == -Cmp(b, a) && Cmp(a, a) == 0
    ensures Cmp(a, b) <= 0 && Cmp(b, c) <= 0 ==>
      Cmp(a, c) <= 0 && (Cmp(a, c) == 0 <==> Cmp(a, b) == 0 == Cmp(b, c))
  {
    var w := Width(Longer(a, b), c);
    CmpWider(a, b, 0, Width(a, b), w);
    CmpWider(b, a, 0, Width(b, a), w);
    CmpWider(b, c, 0, Width(b, c), w);
    CmpWider(a, c, 0, Width(a, c), w);
    CmpFromTransitive(a, b, c, 0, w);
    CmpFromTransitive(a, a, a, 0, |a|);
  }

  function Longer(a: Version, b: Version): Version {
    if |a| <= |b| then b else a
  }

  /** What the comparison says of two versions that agree on their first
      numbers is decided by the first position at which they do not. */
  lemma {:induction false} CmpDecidedAt(a: Version, b: Version, i: nat, k: nat, width: nat)
    requires i <= k < width && (forall j | i <= j < k :: At(a, j) == At(b, j)) && At(a, k) != At(b, k)
    ensures CmpFrom(a, b, i, width) == if At(a, k) < At(b, k) then -1 else 1
    decreases k - i
  {
    if i < k { CmpDecidedAt(a, b, i + 1, k, width); }
  }

  /** A tie is agreement at every position. */
  lemma {:induction false} CmpTie(a: Version, b: Version, i: nat, width: nat)
    requires i <= width
    ensures CmpFrom(a, b, i, width) == 0 <==> forall j | i <= j < width :: At(a, j) == At(b, j)
    decreases width - i
  {
    if i < width { CmpTie(a, b, i + 1, width); }
  }

  /** The first position at which two versions differ. */
  lemma {:induction false} FirstDifference(a: Version, b: Version, i: nat, width: nat) returns (k: nat)
    requires i <= width && CmpFrom(a, b, i, width) != 0
    ensures i <= k < width && (forall j | i <= j < k :: At(a, j) == At(b, j)) && At(a, k) != At(b, k)
    ensures (At(a, k) < At(b, k)) == (CmpFrom(a, b, i, width) < 0)
    decreases width - i
  {
    if At(a, i) != At(b, i) { k := i; } else { k := FirstDifference(a, b, i + 1, width); }
  }

  /** A version just above a, and below b whenever b is above a. */
  function JustAbove(a: Version, b: Version): Version {
    a + seq(Width(a, b) - |a|, _ => 0) + [1]
  }

  /** The order is dense: there is always a version in between. */
  lemma CmpDense(a: Version, b: Version)
    ensures Cmp(a, JustAbove(a, b)) < 0
    ensures Cmp(a, b) < 0 ==> Cmp(JustAbove(a, b), b) < 0
  {
    var c := JustAbove(a, b);
    var w := Width(a, b);
    assert forall j | 0 <= j < w :: At(c, j) == At(a, j);
    CmpDecidedAt(a, c, 0, w, w + 1);
    if Cmp(a, b) < 0 {
      var k := FirstDifference(a, b, 0, w);
      CmpDecidedAt(c, b, 0, k, w + 1);
    }
  }

  // ------------------------------------------------------ releases, branches

  /** Releases of the same branch are ordered by their patch number. */
  lemma CmpPatch(major: nat, minor: nat, p: nat, q: nat)
    ensures Cmp([major, minor, p], [major, minor, q]) == if p < q then -1 else if p == q then 0 else 1
  {
    var a: Version := [major, minor, p];
    var b: Version := [major, minor, q];
    if p != q { CmpDecidedAt(a, b, 0, 2, 3); } else { CmpTie(a, b, 0, 3); }
  }

  predicate InBranch(v: Version, major: nat, minor: nat) {
    |v| >= 2 && v[0] == major && v[1] == minor
  }

  /** A version between two releases of a branch starts with that branch's numbers. */
  lemma CmpBetween(major: nat, minor: nat, p: nat, q: nat, v: Version)
    requires Cmp([major, minor, p], v) <= 0 && Cmp(v, [major, minor, q]) <= 0
    ensures At(v, 0) == major && At(v, 1) == minor && p <= At(v, 2) <= q
  {
    var a: Version := [major, minor, p];
    var b: Version := [major, minor, q];
    var w := if |v| < 3 then 3 else |v|;
    FirstThree(a, v, w);
    FirstThree(v, b, w);
  }

  lemma FirstThree(a: Version, b: Version, w: nat)
    requires w == Width(a, b) && w >= 3 && Cmp(a, b) <= 0
    ensures At(a, 0) <= At(b, 0)
    ensures At(a, 0) == At(b, 0) ==> At(a, 1) <= At(b, 1)
    ensures At(a, 0) == At(b, 0) && At(a, 1) == At(b, 1) ==> At(a, 2) <= At(b, 2)
  {
    if Cmp(a, b) < 0 {
      var k := FirstDifference(a, b, 0, w);
    } else {
      CmpTie(a, b, 0, w);
    }
  }

  /** Against its own branch a version stands at its third number, or just above it. */
  lemma CmpOwnBranch(v: Version, major: nat, minor: nat, p: nat)
    requires At(v, 0) == major && At(v, 1) == minor
    ensures p < At(v, 2) ==> Cmp([major, minor, p], v) < 0
    ensures p == At(v, 2) ==> Cmp([major, minor, p], v) <= 0
    ensures p > At(v, 2) ==> Cmp([major, minor, p], v) > 0
  {
    var a: Version := [major, minor, p];
    var w := Width(a, v);
    if p != At(v, 2) {
      CmpDecidedAt(a, v, 0, 2, w);
    } else if Cmp(a, v) != 0 {
      var k := FirstDifference(a, v, 0, w);
      assert k >= 3;
    }
  }

  // ------------------------------------------------------------------ ranges

  /** An end of a range: not given, given but not numbers, or a version. */
  datatype Bound = Absent | Unreadable | Is(v: Version)

  datatype Range = Range(exact: Bound, start: Bound, startIncl: bool, end: Bound, endIncl: bool, conditional: bool) {

    /** Every end given can be read, and at least one is. */
    predicate Usable() {
      if !exact.Absent? then exact.Is?
      else if start.Absent? && end.Absent? then false
      else !start.Unreadable? && !end.Unreadable?
    }

    predicate Contains(v: Version)
      requires Usable()
    {
      if exact.Is? then Cmp(v, exact.v) == 0
      else
        && (start.Is? ==> Cmp(v, start.v) > 0 || (Cmp(v, start.v) == 0 && startIncl))
        && (end.Is? ==> Cmp(v, end.v) < 0 || (Cmp(v, end.v) == 0 && endIncl))
    }
  }

  /** What lies between two members is a member. */
  lemma ContainsConvex(r: Range, a: Version, b: Version, c: Version)
    requires r.Usable() && r.Contains(a) && r.Contains(c) && Cmp(a, b) <= 0 && Cmp(b, c) <= 0
    ensures r.Contains(b)
  {
    if r.exact.Is? {
      CmpOrder(r.exact.v, a, b); CmpOrder(a, r.exact.v, b); CmpOrder(b, c, r.exact.v); CmpOrder(c, r.exact.v, b);
      CmpOrder(b, r.exact.v, b); CmpOrder(r.exact.v, b, a);
    } else {
      if r.start.Is? { CmpOrder(r.start.v, a, b); CmpOrder(a, r.start.v, a); CmpOrder(b, r.start.v, b); }
      if r.end.Is? { CmpOrder(b, c, r.end.v); }
    }
  }

  /** Some version lies in the range. */
  ghost predicate NonEmpty(r: Range)
    requires r.Usable()
  {
    exists v: Version :: r.Contains(v)
  }

  lemma {:induction false} ZeroIsLeast(v: Version, i: nat, width: nat)
    requires i <= width
    ensures CmpFrom([0], v, i, width) <= 0
    decreases width - i
  {
    if i < width { ZeroIsLeast(v, i + 1, width); }
  }

  /** Its ends do not cross, nor meet without both being included, and it does
      not end before version 0. */
  predicate HoldsSome(r: Range)
    requires r.Usable()
  {
    || r.exact.Is?
    || r.end.Absent?
    || (r.start.Absent? && (r.endIncl || Cmp([0], r.end.v) < 0))
    || (r.start.Is? && (Cmp(r.start.v, r.end.v) < 0 || (Cmp(r.start.v, r.end.v) == 0 && r.startIncl && r.endIncl)))
  }

  /** The ends alone tell whether any version lies in the range. */
  lemma NonEmptyIff(r: Range)
    requires r.Usable()
    ensures NonEmpty(r) <==> HoldsSome(r)
  {
    if r.exact.Is? {
      CmpOrder(r.exact.v, r.exact.v, r.exact.v);
      assert r.Contains(r.exact.v);
    } else if r.end.Absent? {
      CmpDense(r.start.v, r.start.v);
      CmpOrder(r.start.v, JustAbove(r.start.v, r.start.v), r.start.v);
      assert r.Contains(JustAbove(r.start.v, r.start.v));
    } else if r.start.Absent? {
      NonEmptyUpTo(r);
    } else {
      NonEmptyBetween(r);
    }
  }

  lemma NonEmptyUpTo(r: Range)
    requires r.Usable() && r.exact.Absent? && r.start.Absent? && r.end.Is?
    ensures NonEmpty(r) <==> r.endIncl || Cmp([0], r.end.v) < 0
  {
    if r.endIncl {
      CmpOrder(r.end.v, r.end.v, r.end.v);
      assert r.Contains(r.end.v);
    } else if Cmp([0], r.end.v) < 0 {
      assert r.Contains([0]);
    } else if NonEmpty(r) {
      var v: Version :| r.Contains(v);
      ZeroIsLeast(v, 0, Width([0], v));
      CmpOrder([0], v, r.end.v);
    }
  }

  lemma NonEmptyBetween(r: Range)
    requires r.Usable() && r.exact.Absent? && r.start.Is? && r.end.Is?
    ensures NonEmpty(r) <==>
      Cmp(r.start.v, r.end.v) < 0 || (Cmp(r.start.v, r.end.v) == 0 && r.startIncl && r.endIncl)
  {
    var (s, e) := (r.start.v, r.end.v);
    if Cmp(s, e) < 0 {
      CmpDense(s, e);
      CmpOrder(s, JustAbove(s, e), e);
      assert r.Contains(JustAbove(s, e));
    } else if Cmp(s, e) == 0 && r.startIncl && r.endIncl {
      CmpOrder(s, s, s);
      assert r.Contains(s);
    } else if NonEmpty(r) {
      var v: Version :| r.Contains(v);
      CmpOrder(s, v, e);
      CmpOrder(v, s, e);
    }
  }
}
