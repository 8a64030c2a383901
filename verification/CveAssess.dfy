/** Decisions made from affected ranges (cve_feed.py): whether a version shown
    is hit, from which release a branch is clean, and which release fixes it.

    Each is computed from a handful of comparisons; each is proved to hold
    of every version it speaks about. */
module CveAssess {
  import opened Common
  import opened CveVersions

  // ------------------------------------------------------ is the version hit

  datatype Verdict = Yes | Maybe | No

  /** A version as a response shows it; without its patch release only the
      first two numbers mean anything. */
  datatype Shown = Shown(version: Version, patchKnown: bool, vendor: bool)

  const PATCH_UNKNOWN_HIGH := 999999

  /** Some patch release of the branch is affected. */
  ghost predicate SomePatch(r: Range, major: nat, minor: nat)
    requires r.Usable()
  {
    exists p: nat :: r.Contains([major, minor, p])
  }

  /** Every patch release of the branch up to the highest looked at is affected. */
  ghost predicate EveryPatch(r: Range, major: nat, minor: nat)
    requires r.Usable()
  {
    forall p: nat | p <= PATCH_UNKNOWN_HIGH :: r.Contains([major, minor, p])
  }

  /** What the answer should be, over every patch release of the branch. */
  ghost function VerdictOf(r: Range, shown: Shown): Verdict
    requires r.Usable() && |shown.version| >= 2
  {
    var (major, minor) := (shown.version[0], shown.version[1]);
    if shown.patchKnown then (if r.Contains(shown.version) then Yes else No)
    else if r.exact.Absent? && EveryPatch(r, major, minor) then Yes
    else if SomePatch(r, major, minor) then Maybe
    else No
  }

  /** The ends of the range that name the branch. */
  function BoundsIn(r: Range, major: nat, minor: nat): (vs: seq<Version>)
    ensures forall v | v in vs :: InBranch(v, major, minor)
  {
    BoundIn(r.exact, major, minor) + BoundIn(r.start, major, minor) + BoundIn(r.end, major, minor)
  }

  function BoundIn(b: Bound, major: nat, minor: nat): seq<Version> {
    if b.Is? && InBranch(b.v, major, minor) then [b.v] else []
  }

  function Less1(p: nat): nat {
    if p == 0 then 0 else p - 1
  }

  /** Some release at or next to the bound's own patch number is a member. */
  predicate HitNear(r: Range, major: nat, minor: nat, bound: Version)
    requires r.Usable()
  {
    var patch := At(bound, 2);
    r.Contains([major, minor, patch]) || r.Contains([major, minor, Less1(patch)])
      || r.Contains([major, minor, patch + 1])
  }

  lemma NearStart(r: Range, major: nat, minor: nat, p: nat)
    requires r.Usable() && r.exact.Absent? && r.Contains([major, minor, p]) && !r.Contains([major, minor, 0])
    ensures r.start.Is? && At(r.start.v, 0) == major && At(r.start.v, 1) == minor
    ensures HitNear(r, major, minor, r.start.v)
  {
    var low: Version := [major, minor, 0];
    var here: Version := [major, minor, p];
    CmpPatch(major, minor, 0, p);
    if r.end.Is? { CmpOrder(low, here, r.end.v); }
    var s := r.start.v;
    CmpOrder(low, s, here);
    CmpOrder(s, here, s);
    CmpBetween(major, minor, 0, p, s);
    var k := At(s, 2);
    CmpOwnBranch(s, major, minor, p);
    CmpOwnBranch(s, major, minor, k);
    CmpOwnBranch(s, major, minor, k + 1);
    if p > k {
      CmpPatch(major, minor, k + 1, p);
      if r.end.Is? { CmpOrder([major, minor, k + 1], here, r.end.v); }
      assert r.Contains([major, minor, k + 1]);
    }
  }

  lemma NearEnd(r: Range, major: nat, minor: nat, p: nat, q: nat)
    requires r.Usable() && r.exact.Absent? && r.Contains([major, minor, p]) && p < q && !r.Contains([major, minor, q])
    ensures r.end.Is? && At(r.end.v, 0) == major && At(r.end.v, 1) == minor && p <= At(r.end.v, 2)
    ensures HitNear(r, major, minor, r.end.v)
  {
    var here: Version := [major, minor, p];
    var high: Version := [major, minor, q];
    CmpPatch(major, minor, p, q);
    if r.start.Is? {
      CmpOrder(r.start.v, here, high);
      CmpOrder(r.start.v, here, r.start.v);
      CmpOrder(high, r.start.v, high);
    }
    var e := r.end.v;
    CmpOrder(here, e, high);
    CmpOrder(high, e, high);
    CmpBetween(major, minor, p, q, e);
    var k := At(e, 2);
    if p < k {
      CmpOwnBranch(e, major, minor, k - 1);
      CmpPatch(major, minor, p, k - 1);
      if r.start.Is? {
        CmpOrder(r.start.v, here, [major, minor, k - 1]);
        CmpOrder(r.start.v, here, r.start.v);
        CmpOrder([major, minor, k - 1], r.start.v, [major, minor, k - 1]);
      }
      assert r.Contains([major, minor, k - 1]);
    }
  }

  /** A version of fewer than two numbers stands for its branch's release 0. */
  lemma ShortBound(v: Version, major: nat, minor: nat)
    requires At(v, 0) == major && At(v, 1) == minor && !InBranch(v, major, minor)
    ensures Cmp([major, minor, 0], v) == 0
  {
    CmpTie([major, minor, 0], v, 0, 3);
  }

  lemma NearExact(r: Range, major: nat, minor: nat, p: nat)
    requires r.Usable() && r.exact.Is? && r.Contains([major, minor, p]) && !r.Contains([major, minor, 0])
    ensures InBranch(r.exact.v, major, minor) && HitNear(r, major, minor, r.exact.v)
  {
    var here: Version := [major, minor, p];
    var v := r.exact.v;
    CmpTie(here, v, 0, Width(here, v));
    assert At(here, 0) == At(v, 0) && At(here, 1) == At(v, 1) && At(here, 2) == At(v, 2);
    if !InBranch(v, major, minor) { ShortBound(v, major, minor); }
  }

  /** When the start is written too short to name its branch, the end does. */
  lemma NearEndInstead(r: Range, major: nat, minor: nat, p: nat)
    requires r.Usable() && r.exact.Absent? && r.Contains([major, minor, p])
    requires !r.Contains([major, minor, 0]) && !r.Contains([major, minor, PATCH_UNKNOWN_HIGH])
    requires r.start.Is? && Cmp([major, minor, 0], r.start.v) == 0
    ensures r.end.Is? && InBranch(r.end.v, major, minor) && HitNear(r, major, minor, r.end.v)
  {
    if PATCH_UNKNOWN_HIGH < p {
      CmpPatch(major, minor, 0, PATCH_UNKNOWN_HIGH);
      CmpPatch(major, minor, PATCH_UNKNOWN_HIGH, p);
      CmpOrder(r.start.v, [major, minor, 0], [major, minor, PATCH_UNKNOWN_HIGH]);
      CmpOrder([major, minor, 0], r.start.v, [major, minor, PATCH_UNKNOWN_HIGH]);
      CmpOrder([major, minor, PATCH_UNKNOWN_HIGH], r.start.v, [major, minor, PATCH_UNKNOWN_HIGH]);
      if r.end.Is? { CmpOrder([major, minor, PATCH_UNKNOWN_HIGH], [major, minor, p], r.end.v); }
      assert false;
    }
    NearEnd(r, major, minor, p, PATCH_UNKNOWN_HIGH);
    if p == 0 { assert false; }
  }

  /** If any patch release of the branch is a member, one of the few that are
      looked at is. */
  lemma ProbesSuffice(r: Range, major: nat, minor: nat, p: nat)
    requires r.Usable() && r.Contains([major, minor, p])
    requires !r.Contains([major, minor, 0]) && !r.Contains([major, minor, PATCH_UNKNOWN_HIGH])
    ensures exists bound :: bound in BoundsIn(r, major, minor) && HitNear(r, major, minor, bound)
  {
    if r.exact.Is? {
      NearExact(r, major, minor, p);
      assert r.exact.v in BoundsIn(r, major, minor);
    } else {
      NearStart(r, major, minor, p);
      if InBranch(r.start.v, major, minor) {
        assert r.start.v in BoundsIn(r, major, minor);
      } else {
        ShortBound(r.start.v, major, minor);
        NearEndInstead(r, major, minor, p);
        assert r.end.v in BoundsIn(r, major, minor);
      }
    }
  }

  /** With the first and the last release of the branch, all of it is affected. */
  lemma EndsSuffice(r: Range, major: nat, minor: nat)
    requires r.Usable() && r.Contains([major, minor, 0]) && r.Contains([major, minor, PATCH_UNKNOWN_HIGH])
    ensures EveryPatch(r, major, minor)
  {
    forall p: nat | p <= PATCH_UNKNOWN_HIGH ensures r.Contains([major, minor, p]) {
      CmpPatch(major, minor, 0, p);
      CmpPatch(major, minor, p, PATCH_UNKNOWN_HIGH);
      ContainsConvex(r, [major, minor, 0], [major, minor, p], [major, minor, PATCH_UNKNOWN_HIGH]);
    }
  }

  /** The answer, from the first and last release of the branch and from those
      at and next to the range's own ends. */
  method Hits(r: Range, shown: Shown) returns (verdict: Verdict)
    requires r.Usable() && |shown.version| >= 2
    ensures verdict == VerdictOf(r, shown)
  {
    if shown.patchKnown {
      return if r.Contains(shown.version) then Yes else No;
    }
    var major, minor := shown.version[0], shown.version[1];
    var low, high: Version := [major, minor, 0], [major, minor, PATCH_UNKNOWN_HIGH];
    if r.Contains(low) && r.Contains(high) && r.exact.Absent? {
      EndsSuffice(r, major, minor);
      return Yes;
    }
    var patches: seq<nat> := [0, PATCH_UNKNOWN_HIGH];
    var bounds := BoundsIn(r, major, minor);
    for i := 0 to |bounds|
      invariant 0 in patches && PATCH_UNKNOWN_HIGH in patches
      invariant forall j | 0 <= j < i ::
        At(bounds[j], 2) in patches && Less1(At(bounds[j], 2)) in patches && At(bounds[j], 2) + 1 in patches
    {
      var patch := At(bounds[i], 2);
      patches := patches + [patch, Less1(patch), patch + 1];
    }
    assert EveryPatch(r, major, minor) ==> r.Contains(low) && r.Contains(high);
    verdict := No;
    for i := 0 to |patches|
      invariant verdict == Maybe ==> SomePatch(r, major, minor)
      invariant verdict == No ==> forall j | 0 <= j < i :: !r.Contains([major, minor, patches[j]])
      invariant verdict != Yes
    {
      if r.Contains([major, minor, patches[i]]) { verdict := Maybe; }
    }
    if verdict == No { NoneProbed(r, major, minor, patches); }
  }

  lemma NoneProbed(r: Range, major: nat, minor: nat, patches: seq<nat>)
    requires r.Usable() && forall p | p in patches :: !r.Contains([major, minor, p])
    requires 0 in patches && PATCH_UNKNOWN_HIGH in patches
    requires forall bound | bound in BoundsIn(r, major, minor) ::
      At(bound, 2) in patches && Less1(At(bound, 2)) in patches && At(bound, 2) + 1 in patches
    ensures !SomePatch(r, major, minor)
  {
    if SomePatch(r, major, minor) {
      var p: nat :| r.Contains([major, minor, p]);
      ProbesSuffice(r, major, minor, p);
    }
  }

  // ------------------------------------------------------- is a branch clean

  predicate IsRelease(v: Version) {
    |v| == 3
  }

  function NextBranch(release: Version): Version
    requires IsRelease(release)
  {
    [release[0], release[1] + 1, 0]
  }

  /** Not ruled out by three comparisons: the range ends before the release, or
      starts only in the next branch. */
  predicate Reaches(r: Range, release: Version)
    requires r.Usable() && IsRelease(release)
  {
    var upper := NextBranch(release);
    if r.exact.Is? then Cmp(r.exact.v, release) >= 0 && Cmp(r.exact.v, upper) < 0
    else if r.end.Is? && (Cmp(r.end.v, release) < 0 || (Cmp(r.end.v, release) == 0 && !r.endIncl)) then false
    else r.start.Absent? || Cmp(r.start.v, upper) < 0
  }

  /** The version is at or after the release and before the next branch. */
  predicate FromOn(release: Version, v: Version)
    requires IsRelease(release)
  {
    Cmp(v, release) >= 0 && Cmp(v, NextBranch(release)) < 0
  }

  ghost predicate Meets(r: Range, release: Version)
    requires r.Usable() && IsRelease(release)
  {
    exists v: Version :: r.Contains(v) && FromOn(release, v)
  }

  /** That is: a version of the release's own branch, at or after it. */
  lemma FromOnIff(release: Version, v: Version)
    requires IsRelease(release)
    ensures FromOn(release, v) <==>
      At(v, 0) == release[0] && At(v, 1) == release[1] && Cmp(v, release) >= 0
  {
    var (next, w) := (NextBranch(release), Width(v, NextBranch(release)));
    CmpOrder(release, v, release);
    if At(v, 0) == release[0] && At(v, 1) == release[1] {
      CmpDecidedAt(v, next, 0, 1, w);
    } else if Cmp(v, release) >= 0 {
      FirstThree(release, v, Width(release, v));
      if At(v, 0) > release[0] {
        CmpDecidedAt(v, next, 0, 0, w);
      } else {
        LaterBranch(release, v);
      }
    }
  }

  lemma LaterBranch(release: Version, v: Version)
    requires IsRelease(release) && At(v, 0) == release[0] && At(v, 1) > release[1]
    ensures Cmp(v, NextBranch(release)) >= 0
  {
    var next := NextBranch(release);
    if Cmp(v, next) < 0 {
      CmpOrder(next, v, next);
      var k := FirstDifference(v, next, 0, Width(v, next));
    }
  }

  lemma ReleaseBeforeNext(release: Version)
    requires IsRelease(release)
    ensures Cmp(release, NextBranch(release)) < 0
  {
    CmpDecidedAt(release, NextBranch(release), 0, 1, 3);
  }

  lemma MeetsIsReached(r: Range, release: Version, v: Version)
    requires r.Usable() && IsRelease(release) && r.Contains(v) && FromOn(release, v)
    ensures Reaches(r, release)
  {
    var upper := NextBranch(release);
    if r.exact.Is? {
      CmpOrder(release, v, r.exact.v);
      CmpOrder(r.exact.v, v, upper);
      CmpOrder(release, r.exact.v, release);
      CmpOrder(r.exact.v, v, r.exact.v);
      CmpOrder(release, v, release);
    } else {
      if r.end.Is? {
        CmpOrder(release, v, r.end.v);
        CmpOrder(r.end.v, release, r.end.v);
        CmpOrder(release, v, release);
      }
      if r.start.Is? {
        CmpOrder(r.start.v, v, upper);
        CmpOrder(r.start.v, v, r.start.v);
      }
    }
  }

  /** The witness for a range that is reached and holds some version w. */
  lemma ReachedIsMet(r: Range, release: Version, w: Version)
    requires r.Usable() && IsRelease(release) && Reaches(r, release) && r.Contains(w)
    ensures Meets(r, release)
  {
    var upper := NextBranch(release);
    ReleaseBeforeNext(release);
    CmpOrder(release, release, release);
    if r.exact.Is? {
      CmpOrder(r.exact.v, r.exact.v, r.exact.v);
      assert r.Contains(r.exact.v) && FromOn(release, r.exact.v);
    } else if Cmp(w, upper) >= 0 {
      ReachedFromAbove(r, release, w);
    } else if Cmp(w, release) >= 0 {
      assert r.Contains(w) && FromOn(release, w);
    } else {
      ReachedFromBelow(r, release, w);
    }
  }

  lemma ReachedFromBelow(r: Range, release: Version, w: Version)
    requires r.Usable() && r.exact.Absent? && IsRelease(release) && Reaches(r, release)
    requires r.Contains(w) && Cmp(w, release) < 0
    ensures Meets(r, release)
  {
    ReleaseBeforeNext(release);
    CmpOrder(release, release, release);
    if r.start.Is? {
      CmpOrder(r.start.v, w, release);
      CmpOrder(r.start.v, w, r.start.v);
      CmpOrder(release, r.start.v, release);
    }
    if r.end.Is? { CmpOrder(release, r.end.v, release); }
    assert r.Contains(release) && FromOn(release, release);
  }

  lemma ReachedFromAbove(r: Range, release: Version, w: Version)
    requires r.Usable() && r.exact.Absent? && IsRelease(release) && Reaches(r, release)
    requires r.Contains(w) && Cmp(w, NextBranch(release)) >= 0
    ensures Meets(r, release)
  {
    var upper := NextBranch(release);
    ReleaseBeforeNext(release);
    CmpOrder(release, release, release);
    CmpOrder(release, upper, w);
    CmpOrder(upper, w, upper);
    if r.start.Absent? || Cmp(r.start.v, release) < 0 {
      if r.start.Is? { CmpOrder(release, r.start.v, release); }
      if r.end.Is? { CmpOrder(release, w, r.end.v); }
      assert r.Contains(release) && FromOn(release, release);
    } else {
      var v := JustAbove(r.start.v, upper);
      CmpDense(r.start.v, upper);
      CmpOrder(release, r.start.v, v);
      CmpOrder(release, v, release);
      CmpOrder(r.start.v, release, r.start.v);
      CmpOrder(v, r.start.v, v);
      if r.end.Is? {
        CmpOrder(v, upper, w);
        CmpOrder(v, w, r.end.v);
      }
      assert r.Contains(v) && FromOn(release, v);
    }
  }

  /** The three comparisons decide, over all versions, whether the range takes
      in any from the release up to the next branch -- but for a range in which
      no version lies at all. */
  lemma ReachesIffMeets(r: Range, release: Version)
    requires r.Usable() && IsRelease(release)
    ensures Meets(r, release) <==> Reaches(r, release) && NonEmpty(r)
  {
    if Meets(r, release) {
      var v: Version :| r.Contains(v) && FromOn(release, v);
      MeetsIsReached(r, release, v);
    }
    if Reaches(r, release) && NonEmpty(r) {
      var w: Version :| r.Contains(w);
      ReachedIsMet(r, release, w);
    }
  }

  /** A range that holds nothing can still be counted as reaching: its ends
      meet and only one is included. */
  lemma EmptyRangeReaches()
    ensures var r := Range(Absent, Is([1, 5]), false, Is([1, 5]), true, false);
      r.Usable() && Reaches(r, [1, 5, 0]) && !Meets(r, [1, 5, 0])
  {
    var r := Range(Absent, Is([1, 5]), false, Is([1, 5]), true, false);
    CmpTie([1, 5], [1, 5], 0, 2);
    CmpTie([1, 5], [1, 5, 0], 0, 3);
    CmpDecidedAt([1, 5], [1, 6, 0], 0, 1, 3);
    NonEmptyIff(r);
    ReachesIffMeets(r, [1, 5, 0]);
  }

  // --------------------------------------------- the clean release of a branch

  type Branch = (nat, nat)

  predicate Newer(a: Branch, b: Branch) {
    a.0 > b.0 || (a.0 == b.0 && a.1 > b.1)
  }

  function BranchOf(v: Version): Branch {
    (At(v, 0), At(v, 1))
  }

  /** A version as major.minor.patch, when it has two or three numbers. */
  function Release(b: Bound): (release: Option<Version>)
    ensures release.Some? ==> IsRelease(release.value)
    ensures release.Some? <==> b.Is? && 2 <= |b.v| <= 3
    ensures release.Some? ==> Cmp(release.value, b.v) == 0
  {
    if b.Is? && 2 <= |b.v| <= 3 then
      var release := b.v + seq(3 - |b.v|, _ => 0);
      CmpTie(release, b.v, 0, 3);
      Some(release)
    else None
  }

  /** The release a range names as the first without the flaw. */
  function FixOf(r: Range): (release: Option<Version>)
    ensures release.Some? ==> IsRelease(release.value)
  {
    if r.end.Is? && !r.endIncl && r.exact.Absent? then Release(r.end) else None
  }

  /** A range names a release as the first without the flaw exactly when it is
      an interval with an exclusive end of two or three numbers, and these are
      the release's. */
  lemma FixOfIff(r: Range, release: Version)
    requires IsRelease(release)
    ensures FixOf(r) == Some(release) <==>
      && r.exact.Absent? && r.end.Is? && !r.endIncl && 2 <= |r.end.v| <= 3
      && release == [r.end.v[0], r.end.v[1], if |r.end.v| == 3 then r.end.v[2] else 0]
  {
    if r.end.Is? && 2 <= |r.end.v| <= 3 {
      var v := r.end.v;
      assert v + seq(3 - |v|, _ => 0) == [v[0], v[1], if |v| == 3 then v[2] else 0];
    }
  }

  /** The newest release that some range of the list names for a branch. */
  ghost predicate IsCandidate(ranges: seq<Range>, release: Version) {
    && IsRelease(release)
    && (exists r :: r in ranges && FixOf(r) == Some(release))
    && forall r | r in ranges && FixOf(r).Some? && BranchOf(FixOf(r).value) == BranchOf(release) ::
      Cmp(FixOf(r).value, release) <= 0
  }

  ghost predicate Unreached(ranges: seq<Range>, release: Version)
    requires IsRelease(release) && forall r | r in ranges :: r.Usable()
  {
    forall r | r in ranges :: !Reaches(r, release)
  }

  /** No version of the branch from the release on lies in any range. */
  ghost predicate SafeFrom(ranges: seq<Range>, release: Version)
    requires IsRelease(release) && forall r | r in ranges :: r.Usable()
  {
    forall r, v: Version | r in ranges && FromOn(release, v) :: !r.Contains(v)
  }

  lemma UnreachedIsSafe(ranges: seq<Range>, release: Version)
    requires IsRelease(release) && (forall r | r in ranges :: r.Usable()) && Unreached(ranges, release)
    ensures SafeFrom(ranges, release)
  {
    forall r, v: Version | r in ranges && FromOn(release, v) ensures !r.Contains(v) {
      ReachesIffMeets(r, release);
    }
  }

  // ------------------------------------------- is it the first clean release

  lemma NamedEndsLater(r: Range, release: Version, earlier: Version)
    requires r.Usable() && FixOf(r) == Some(release) && IsRelease(release) && IsRelease(earlier)
    requires BranchOf(earlier) == BranchOf(release) && earlier[2] < release[2]
    ensures r.exact.Absent? && r.end.Is? && !r.endIncl
    ensures Cmp(earlier, r.end.v) < 0 && Cmp(r.end.v, NextBranch(earlier)) < 0
  {
    CmpPatch(release[0], release[1], earlier[2], release[2]);
    assert earlier == [release[0], release[1], earlier[2]] && release == [release[0], release[1], release[2]];
    CmpOrder(earlier, release, r.end.v);
    CmpOrder(release, r.end.v, release);
    var upper := NextBranch(earlier);
    CmpDecidedAt(release, upper, 0, 1, 3);
    CmpOrder(r.end.v, release, upper);
  }

  /** Every range that names the candidate and holds anything takes in some
      version from each earlier release of the branch on. */
  lemma CandidateIsFirst(ranges: seq<Range>, release: Version, earlier: Version)
    requires (forall r | r in ranges :: r.Usable()) && IsCandidate(ranges, release)
    requires IsRelease(earlier) && BranchOf(earlier) == BranchOf(release) && earlier[2] < release[2]
    ensures forall r | r in ranges && FixOf(r) == Some(release) && NonEmpty(r) :: Meets(r, earlier)
  {
    forall r | r in ranges && FixOf(r) == Some(release) && NonEmpty(r) ensures Meets(r, earlier) {
      NamedEndsLater(r, release, earlier);
      var w: Version :| r.Contains(w);
      var upper := NextBranch(earlier);
      CmpOrder(r.end.v, earlier, r.end.v);
      if r.start.Is? {
        CmpOrder(w, r.end.v, upper);
        CmpOrder(w, r.start.v, w);
        CmpOrder(r.start.v, w, upper);
      }
      ReachesIffMeets(r, earlier);
    }
  }

  /** No earlier release of the branch is safe: from each of them on, some range
      takes in a version. */
  ghost predicate IsFirstSafe(ranges: seq<Range>, release: Version)
    requires IsRelease(release) && forall r | r in ranges :: r.Usable()
  {
    forall earlier: Version | IsRelease(earlier) && BranchOf(earlier) == BranchOf(release) && earlier[2] < release[2] ::
      !SafeFrom(ranges, earlier)
  }

  /** The release just before it in the branch is reached by a range whose ends
      leave room for a version; patch 0 has none before it. */
  predicate JustReached(ranges: seq<Range>, release: Version)
    requires IsRelease(release) && forall r | r in ranges :: r.Usable()
  {
    release[2] == 0 || exists r :: r in ranges && HoldsSome(r) && Reaches(r, [release[0], release[1], release[2] - 1])
  }

  lemma SafeIff(ranges: seq<Range>, release: Version)
    requires IsRelease(release) && forall r | r in ranges :: r.Usable()
    ensures SafeFrom(ranges, release) <==> forall r | r in ranges && HoldsSome(r) :: !Reaches(r, release)
  {
    hide Reaches, HoldsSome, FromOn, Range.Contains, Range.Usable;
    forall r | r in ranges ensures Meets(r, release) <==> Reaches(r, release) && HoldsSome(r) {
      ReachesIffMeets(r, release);
      NonEmptyIff(r);
    }
    if !SafeFrom(ranges, release) {
      var r, v: Version :| r in ranges && FromOn(release, v) && r.Contains(v);
      assert Meets(r, release);
    }
    if r :| r in ranges && HoldsSome(r) && Reaches(r, release) {
      var v: Version :| r.Contains(v) && FromOn(release, v);
    }
  }

  /** Safe from one release on is safe from the next one on. */
  lemma SafeStays(ranges: seq<Range>, earlier: Version, later: Version)
    requires IsRelease(earlier) && IsRelease(later) && forall r | r in ranges :: r.Usable()
    requires BranchOf(earlier) == BranchOf(later) && earlier[2] <= later[2] && SafeFrom(ranges, earlier)
    ensures SafeFrom(ranges, later)
  {
    CmpPatch(earlier[0], earlier[1], earlier[2], later[2]);
    assert earlier == [earlier[0], earlier[1], earlier[2]] && later == [earlier[0], earlier[1], later[2]];
    forall r, v: Version | r in ranges && FromOn(later, v) ensures !r.Contains(v) {
      CmpOrder(v, later, v);
      CmpOrder(earlier, later, v);
      CmpOrder(v, earlier, v);
      assert FromOn(earlier, v);
    }
  }

  /** A release is the first safe one of its branch exactly when the release
      just before it is reached by a range that holds something. */
  lemma FirstSafeIff(ranges: seq<Range>, release: Version)
    requires IsRelease(release) && forall r | r in ranges :: r.Usable()
    ensures IsFirstSafe(ranges, release) <==> JustReached(ranges, release)
  {
    hide Reaches, HoldsSome, SafeFrom, Range.Usable;
    if release[2] > 0 {
      var before: Version := [release[0], release[1], release[2] - 1];
      SafeIff(ranges, before);
      assert BranchOf(before) == BranchOf(release);
      forall earlier: Version | IsRelease(earlier) && BranchOf(earlier) == BranchOf(release) && earlier[2] < release[2]
        ensures SafeFrom(ranges, earlier) ==> SafeFrom(ranges, before)
      {
        if SafeFrom(ranges, earlier) { SafeStays(ranges, earlier, before); }
      }
    }
  }

  /** A range that holds something and names the release makes it the first. */
  lemma NamedIsFirst(ranges: seq<Range>, release: Version, r: Range)
    requires (forall r | r in ranges :: r.Usable()) && IsCandidate(ranges, release)
    requires r in ranges && FixOf(r) == Some(release) && HoldsSome(r)
    ensures IsFirstSafe(ranges, release)
  {
    NonEmptyIff(r);
    forall earlier: Version | IsRelease(earlier) && BranchOf(earlier) == BranchOf(release) && earlier[2] < release[2]
      ensures !SafeFrom(ranges, earlier)
    {
      CandidateIsFirst(ranges, release, earlier);
      assert Meets(r, earlier);
      var v: Version :| r.Contains(v) && FromOn(earlier, v);
    }
  }

  /** An empty range can name a release before which others are safe already:
      from 1.5.3 on and up to before 1.5.3. */
  lemma EmptyRangeNames()
    ensures var ranges := [Range(Absent, Is([1, 5, 3]), true, Is([1, 5, 3]), false, false)];
      && (forall r | r in ranges :: r.Usable()) && IsCandidate(ranges, [1, 5, 3]) && Unreached(ranges, [1, 5, 3])
      && SafeFrom(ranges, [1, 5, 0]) && !IsFirstSafe(ranges, [1, 5, 3])
  {
    var r := Range(Absent, Is([1, 5, 3]), true, Is([1, 5, 3]), false, false);
    var ranges, release, first: Version := [r], [1, 5, 3], [1, 5, 0];
    assert r in ranges && FixOf(r).value == release;
    CmpPatch(1, 5, 3, 3);
    assert !HoldsSome(r);
    SafeIff(ranges, first);
    assert BranchOf(first) == BranchOf(release);
  }

  /** Branches, newest first. */
  method NewestFirst(branches: set<Branch>) returns (sorted: seq<Branch>)
    ensures (forall b :: b in sorted <==> b in branches)
    ensures forall i, j | 0 <= i < j < |sorted| :: Newer(sorted[i], sorted[j])
  {
    sorted := [];
    var left := branches;
    while left != {}
      invariant left <= branches && forall b :: b in sorted <==> b in branches - left
      invariant forall i, j | 0 <= i < j < |sorted| :: Newer(sorted[i], sorted[j])
      invariant forall i, b | 0 <= i < |sorted| && b in left :: Newer(sorted[i], b)
      decreases left
    {
      var newest :| newest in left;
      var others := left - {newest};
      while others != {}
        invariant newest in left && others <= left
        invariant forall b | b in left && b !in others :: b == newest || Newer(newest, b)
        decreases others
      {
        var b :| b in others;
        if Newer(b, newest) { newest := b; }
        others := others - {b};
      }
      sorted := sorted + [newest];
      left := left - {newest};
    }
  }

  /** The branches' candidates, from the exclusive ends of the ranges. */
  method Candidates(ranges: seq<Range>) returns (candidates: map<Branch, Version>)
    ensures forall b | b in candidates :: IsCandidate(ranges, candidates[b]) && BranchOf(candidates[b]) == b
    ensures forall v | IsCandidate(ranges, v) :: BranchOf(v) in candidates && candidates[BranchOf(v)] == v
    ensures forall r | r in ranges && FixOf(r).Some? :: BranchOf(FixOf(r).value) in candidates
  {
    candidates := map[];
    for i := 0 to |ranges|
      invariant forall b | b in candidates :: IsCandidate(ranges[..i], candidates[b]) && BranchOf(candidates[b]) == b
      invariant forall r | r in ranges[..i] && FixOf(r).Some? :: BranchOf(FixOf(r).value) in candidates
    {
      var end := FixOf(ranges[i]);
      ghost var before := candidates;
      assert ranges[..i + 1] == ranges[..i] + [ranges[i]];
      if end.Some? && (BranchOf(end.value) !in candidates || Cmp(end.value, candidates[BranchOf(end.value)]) > 0) {
        candidates := candidates[BranchOf(end.value) := end.value];
      }
      forall b | b in candidates ensures IsCandidate(ranges[..i + 1], candidates[b]) && BranchOf(candidates[b]) == b {
        CandidateKept(ranges[..i], ranges[i], before, b);
      }
    }
    assert ranges[..|ranges|] == ranges;
    forall v | IsCandidate(ranges, v) ensures BranchOf(v) in candidates && candidates[BranchOf(v)] == v {
      SameCandidate(ranges, v, candidates[BranchOf(v)]);
    }
  }

  lemma SameCandidate(ranges: seq<Range>, v: Version, w: Version)
    requires IsCandidate(ranges, v) && IsCandidate(ranges, w) && BranchOf(v) == BranchOf(w)
    ensures v == w
  {
    assert v == [v[0], v[1], v[2]] && w == [v[0], v[1], w[2]];
    CmpPatch(v[0], v[1], v[2], w[2]);
    CmpOrder(v, w, v);
  }

  lemma CandidateKept(ranges: seq<Range>, r: Range, before: map<Branch, Version>, b: Branch)
    requires forall k | k in before :: IsCandidate(ranges, before[k]) && BranchOf(before[k]) == k
    requires forall q | q in ranges && FixOf(q).Some? :: BranchOf(FixOf(q).value) in before
    ensures b in before && (FixOf(r).Some? && BranchOf(FixOf(r).value) == b ==> Cmp(FixOf(r).value, before[b]) <= 0)
      ==> IsCandidate(ranges + [r], before[b])
    ensures FixOf(r).Some? && BranchOf(FixOf(r).value) == b && (b in before ==> Cmp(FixOf(r).value, before[b]) > 0)
      ==> IsCandidate(ranges + [r], FixOf(r).value)
  {
    if b in before && (FixOf(r).Some? && BranchOf(FixOf(r).value) == b ==> Cmp(FixOf(r).value, before[b]) <= 0) {
      var q :| q in ranges && FixOf(q) == Some(before[b]);
      assert q in ranges + [r];
    }
    if FixOf(r).Some? && BranchOf(FixOf(r).value) == b && (b in before ==> Cmp(FixOf(r).value, before[b]) > 0) {
      var v := FixOf(r).value;
      assert r in ranges + [r];
      CmpOrder(v, v, v);
      forall q | q in ranges + [r] && FixOf(q).Some? && BranchOf(FixOf(q).value) == BranchOf(v)
        ensures Cmp(FixOf(q).value, v) <= 0
      {
        if q in ranges {
          CmpOrder(FixOf(q).value, before[b], v);
          CmpOrder(v, before[b], v);
        }
      }
    }
  }

  method AnyReaches(ranges: seq<Range>, release: Version) returns (reached: bool)
    requires IsRelease(release) && forall r | r in ranges :: r.Usable()
    ensures reached <==> !Unreached(ranges, release)
  {
    reached := false;
    for k := 0 to |ranges|
      invariant reached <==> exists j | 0 <= j < k :: Reaches(ranges[j], release)
    {
      if Reaches(ranges[k], release) { reached := true; }
    }
  }

  /** The releases stand from the newest branch down. */
  predicate NewestBranchFirst(releases: seq<Version>) {
    forall i, j | 0 <= i < j < |releases| :: Newer(BranchOf(releases[i]), BranchOf(releases[j]))
  }

  /** The release is listed, or the list is full of newer branches. */
  predicate ListedOrFull(clean: seq<Version>, branches: nat, b: Branch, v: Version) {
    v in clean || (|clean| == branches && forall c | c in clean :: Newer(BranchOf(c), b))
  }

  /** The branches' candidates that no range reaches, newest branch first and at
      most `branches` of them. */
  method CleanFrom(ranges: seq<Range>, branches: nat) returns (clean: seq<Version>)
    requires forall r | r in ranges :: r.Usable()
    ensures |clean| <= branches && NewestBranchFirst(clean)
    ensures forall c | c in clean ::
      IsCandidate(ranges, c) && SafeFrom(ranges, c) && (IsFirstSafe(ranges, c) <==> JustReached(ranges, c))
    ensures forall v | IsCandidate(ranges, v) && Unreached(ranges, v) :: ListedOrFull(clean, branches, BranchOf(v), v)
  {
    hide Reaches, FixOf, Cmp, IsFirstSafe, JustReached, SafeFrom;
    var candidates := Candidates(ranges);
    var order := NewestFirst(candidates.Keys);
    clean := [];
    for i := 0 to |order|
      invariant |clean| <= branches && NewestBranchFirst(clean)
      invariant forall c | c in clean :: IsCandidate(ranges, c) && Unreached(ranges, c)
      invariant forall c, j | c in clean && i <= j < |order| :: Newer(BranchOf(c), order[j])
      invariant forall j | 0 <= j < i && Unreached(ranges, candidates[order[j]]) ::
        ListedOrFull(clean, branches, order[j], candidates[order[j]])
    {
      var end := candidates[order[i]];
      var reached := AnyReaches(ranges, end);
      if !reached && |clean| < branches { clean := clean + [end]; }
    }
    forall c | c in clean ensures SafeFrom(ranges, c) && (IsFirstSafe(ranges, c) <==> JustReached(ranges, c)) {
      UnreachedIsSafe(ranges, c);
      FirstSafeIff(ranges, c);
    }
  }
}
