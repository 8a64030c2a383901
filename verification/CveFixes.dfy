/** What the CVE data says about one version shown, and about the releases
    that fix what it found (cve_feed.py). */
module CveFixes {
  import opened Common
  import opened CveVersions
  import opened CveAssess

  /** A CVE of the product: whether it is exploited, how severe it is, and what
      it affects. */
  datatype Cve = Cve(id: string, kev: bool, score: Option<real>, ranges: seq<Range>)

  // ------------------------------------------------ sorting the CVEs by verdict

  /** A CVE is certain when an unconditional range takes the version in. */
  ghost predicate Certain(cve: Cve, shown: Shown)
    requires |shown.version| >= 2
  {
    exists r :: r in cve.ranges && r.Usable() && !r.conditional && VerdictOf(r, shown) == Yes
  }

  ghost predicate Possible(cve: Cve, shown: Shown)
    requires |shown.version| >= 2
  {
    exists r :: r in cve.ranges && r.Usable() && VerdictOf(r, shown) != No
  }

  predicate Versioned(cve: Cve) {
    exists r :: r in cve.ranges && r.Usable()
  }

  ghost function Unversioned(cves: seq<Cve>): nat {
    if cves == [] then 0
    else Unversioned(cves[..|cves| - 1]) + if Versioned(cves[|cves| - 1]) then 0 else 1
  }

  /** The CVEs without a usable range, counted by where they stand. */
  lemma {:induction false} UnversionedCounts(cves: seq<Cve>)
    ensures Unversioned(cves) == |set i | 0 <= i < |cves| && !Versioned(cves[i])|
    decreases |cves|
  {
    hide Versioned;
    var all := set i | 0 <= i < |cves| && !Versioned(cves[i]);
    if cves == [] {
      assert all == {};
    } else {
      var (init, last) := (cves[..|cves| - 1], |cves| - 1);
      UnversionedCounts(init);
      var before := set i | 0 <= i < |init| && !Versioned(init[i]);
      assert all == before + if Versioned(cves[last]) then {} else {last};
    }
  }

  ghost function CertainOnes(cves: seq<Cve>, shown: Shown): seq<Cve>
    requires |shown.version| >= 2
  {
    if cves == [] then []
    else
      var last := cves[|cves| - 1];
      CertainOnes(cves[..|cves| - 1], shown) + if Certain(last, shown) then [last] else []
  }

  ghost function MerelyPossible(cves: seq<Cve>, shown: Shown): seq<Cve>
    requires |shown.version| >= 2
  {
    if cves == [] then []
    else
      var last := cves[|cves| - 1];
      MerelyPossible(cves[..|cves| - 1], shown) + if !Certain(last, shown) && Possible(last, shown) then [last] else []
  }

  method Weigh(cve: Cve, shown: Shown) returns (versioned: bool, verdict: Verdict)
    requires |shown.version| >= 2
    ensures versioned == Versioned(cve)
    ensures verdict == if Certain(cve, shown) then Yes else if Possible(cve, shown) then Maybe else No
  {
    versioned, verdict := false, No;
    for i := 0 to |cve.ranges|
      invariant versioned <==> exists r :: r in cve.ranges[..i] && r.Usable()
      invariant verdict == Yes <==> exists r ::
        r in cve.ranges[..i] && r.Usable() && !r.conditional && VerdictOf(r, shown) == Yes
      invariant verdict != No <==> exists r :: r in cve.ranges[..i] && r.Usable() && VerdictOf(r, shown) != No
    {
      var r := cve.ranges[i];
      assert cve.ranges[..i + 1] == cve.ranges[..i] + [r];
      if r.Usable() {
        versioned := true;
        var hit := Hits(r, shown);
        if hit == Yes && !r.conditional { verdict := Yes; }
        else if hit != No && verdict != Yes { verdict := Maybe; }
      }
    }
    assert cve.ranges[..|cve.ranges|] == cve.ranges;
  }

  // --------------------------------------------------------- the order shown

  /** Exploited ones first, then the more severe, then by id. */
  predicate RankLe(a: Cve, b: Cve) {
    if a.kev != b.kev then a.kev
    else if a.score.GetOr(0.0) != b.score.GetOr(0.0) then a.score.GetOr(0.0) > b.score.GetOr(0.0)
    else TextLe(a.id, b.id)
  }

  ghost predicate IsRanked(cves: seq<Cve>) {
    forall i, j | 0 <= i < j < |cves| :: RankLe(cves[i], cves[j])
  }

  /** The list with one more CVE, after all that rank no lower. */
  function Placed(sorted: seq<Cve>, c: Cve): (r: seq<Cve>)
    requires IsRanked(sorted)
    ensures IsRanked(r) && multiset(r) == multiset(sorted) + multiset{c}
  {
    if sorted == [] then [c]
    else
      var (init, last) := (sorted[..|sorted| - 1], sorted[|sorted| - 1]);
      assert sorted == init + [last];
      if RankLe(last, c) then
        AllBefore(sorted, c);
        sorted + [c]
      else
        RankTotal(c, last);
        var r := Placed(init, c);
        AllBeforeLast(init, c, last, r);
        r + [last]
  }

  /** The order by its three keys, each only where those before it tie; no
      score counts as none at all. */
  lemma RankMeaning(a: Cve, b: Cve)
    ensures a.kev && !b.kev ==> RankLe(a, b) && !RankLe(b, a)
    ensures a.kev == b.kev && a.score.GetOr(0.0) > b.score.GetOr(0.0) ==> RankLe(a, b) && !RankLe(b, a)
    ensures a.kev == b.kev && a.score.GetOr(0.0) == b.score.GetOr(0.0) && TextBefore(a.id, b.id) ==>
      RankLe(a, b) && !RankLe(b, a)
  {
    TextLeIff(a.id, b.id);
    if TextLe(a.id, b.id) && TextLe(b.id, a.id) { TextAntisymmetric(a.id, b.id); }
  }

  lemma RankTotal(a: Cve, b: Cve)
    ensures RankLe(a, b) || RankLe(b, a)
  {
    TextTotal(a.id, b.id);
  }

  lemma RankTrans(a: Cve, b: Cve, c: Cve)
    requires RankLe(a, b) && RankLe(b, c)
    ensures RankLe(a, c)
  {
    if TextLe(a.id, b.id) && TextLe(b.id, c.id) { TextTrans(a.id, b.id, c.id); }
  }

  lemma AllBefore(sorted: seq<Cve>, c: Cve)
    requires IsRanked(sorted) && sorted != [] && RankLe(sorted[|sorted| - 1], c)
    ensures IsRanked(sorted + [c])
  {
    hide RankLe;
    forall i | 0 <= i < |sorted| ensures RankLe(sorted[i], c) {
      if i < |sorted| - 1 { RankTrans(sorted[i], sorted[|sorted| - 1], c); }
    }
  }

  lemma AllBeforeLast(init: seq<Cve>, c: Cve, last: Cve, r: seq<Cve>)
    requires IsRanked(init + [last]) && IsRanked(r) && multiset(r) == multiset(init) + multiset{c} && RankLe(c, last)
    ensures IsRanked(r + [last])
  {
    hide RankLe;
    forall i | 0 <= i < |r| ensures RankLe(r[i], last) {
      assert r[i] in multiset(r);
      if r[i] != c {
        assert r[i] in init;
        var k :| 0 <= k < |init| && init[k] == r[i];
        assert RankLe((init + [last])[k], (init + [last])[|init|]);
      }
    }
  }

  /** The same CVEs in the order shown. */
  function Ranked(cves: seq<Cve>): (r: seq<Cve>)
    ensures IsRanked(r) && multiset(r) == multiset(cves)
  {
    if cves == [] then []
    else
      assert cves == cves[..|cves| - 1] + [cves[|cves| - 1]];
      Placed(Ranked(cves[..|cves| - 1]), cves[|cves| - 1])
  }

  /** The CVEs that apply to the version shown and those that may, each in the
      order shown; a distribution build has none that apply for certain. */
  method Split(cves: seq<Cve>, shown: Shown) returns (applicable: seq<Cve>, uncertain: seq<Cve>, notVersioned: nat)
    requires |shown.version| >= 2
    ensures notVersioned == Unversioned(cves)
    ensures applicable == Ranked(if shown.vendor then [] else CertainOnes(cves, shown))
    ensures uncertain == Ranked((if shown.vendor then CertainOnes(cves, shown) else []) + MerelyPossible(cves, shown))
  {
    applicable, uncertain, notVersioned := [], [], 0;
    for i := 0 to |cves|
      invariant notVersioned == Unversioned(cves[..i])
      invariant applicable == CertainOnes(cves[..i], shown)
      invariant uncertain == MerelyPossible(cves[..i], shown)
    {
      assert cves[..i + 1][..i] == cves[..i];
      var versioned, verdict := Weigh(cves[i], shown);
      if !versioned {
        notVersioned := notVersioned + 1;
        assert !Certain(cves[i], shown) && !Possible(cves[i], shown);
        continue;
      }
      if verdict == Yes { applicable := applicable + [cves[i]]; }
      else if verdict == Maybe { uncertain := uncertain + [cves[i]]; }
    }
    assert cves[..|cves|] == cves;
    if shown.vendor && applicable != [] {
      applicable, uncertain := [], applicable + uncertain;
    }
    assert [] + MerelyPossible(cves, shown) == MerelyPossible(cves, shown);
    applicable, uncertain := Ranked(applicable), Ranked(uncertain);
  }

  lemma {:induction false} SplitMembers(cves: seq<Cve>, shown: Shown, cve: Cve)
    requires |shown.version| >= 2
    ensures cve in CertainOnes(cves, shown) <==> cve in cves && Certain(cve, shown)
    ensures cve in MerelyPossible(cves, shown) <==> cve in cves && !Certain(cve, shown) && Possible(cve, shown)
    decreases |cves|
  {
    if cves != [] {
      SplitMembers(cves[..|cves| - 1], shown, cve);
      assert cves == cves[..|cves| - 1] + [cves[|cves| - 1]];
    }
  }

  /** A CVE applies for certain exactly when a range without conditions takes
      the version in; one with conditions alone makes it possible at most. */
  lemma ConditionalNeverCertain(cve: Cve, shown: Shown)
    requires |shown.version| >= 2
    ensures Certain(cve, shown) ==> exists r :: r in cve.ranges && r.Usable() && !r.conditional
    ensures (forall r | r in cve.ranges && r.Usable() :: r.conditional || VerdictOf(r, shown) != Yes) ==>
      !Certain(cve, shown)
    ensures forall r | r in cve.ranges && r.Usable() && VerdictOf(r, shown) == Yes ::
      Possible(cve, shown) && (!r.conditional ==> Certain(cve, shown))
  {
  }

  /** "No known CVE" means just that: with neither list holding anything, no
      usable range of any CVE takes in the version shown, nor, when its patch
      release is not shown, any patch release it could be. */
  lemma NothingFoundMeansNone(cves: seq<Cve>, shown: Shown, cve: Cve, r: Range)
    requires |shown.version| >= 2
    requires CertainOnes(cves, shown) == [] && MerelyPossible(cves, shown) == []
    requires cve in cves && r in cve.ranges && r.Usable()
    ensures shown.patchKnown ==> !r.Contains(shown.version)
    ensures !shown.patchKnown ==> forall p: nat :: !r.Contains([shown.version[0], shown.version[1], p])
  {
    SplitMembers(cves, shown, cve);
    assert VerdictOf(r, shown) == No;
  }

  // ------------------------------------------------- the release that fixes it

  /** The intervals that take the version in. */
  predicate Affects(r: Range, version: Version) {
    r.Usable() && r.exact.Absent? && r.Contains(version)
  }

  /** The interval ends in the version's own branch, at a release without the flaw. */
  predicate EndsInBranch(r: Range, version: Version)
    requires |version| >= 2
  {
    r.end.Is? && !r.endIncl && InBranch(r.end.v, version[0], version[1])
  }

  predicate HasFix(ranges: seq<Range>, version: Version)
    requires |version| >= 2
  {
    (exists r :: r in ranges && Affects(r, version))
    && forall r | r in ranges && Affects(r, version) :: EndsInBranch(r, version)
  }

  /** v lies in none of the ranges that the version lies in. */
  ghost predicate Clear(applicable: seq<Cve>, version: Version, v: Version) {
    forall cve, r | cve in applicable && r in cve.ranges && r.Usable() && r.Contains(version) :: !r.Contains(v)
  }

  /** t is the first version from the one shown on that is clear, and it is a
      newer one of the same branch. */
  ghost predicate IsFirstClear(applicable: seq<Cve>, version: Version, t: Version)
    requires |version| >= 2
  {
    && InBranch(t, version[0], version[1]) && Cmp(t, version) > 0
    && Clear(applicable, version, t)
    && forall v: Version | Cmp(v, version) >= 0 && Clear(applicable, version, v) :: Cmp(t, v) <= 0
  }

  /** t is the greatest end of the intervals that take the version in. */
  ghost predicate GreatestEnd(rs: seq<Range>, version: Version, t: Version)
    requires |version| >= 2
  {
    && (exists r :: r in rs && Affects(r, version) && EndsInBranch(r, version) && r.end.v == t)
    && forall r | r in rs && Affects(r, version) :: EndsInBranch(r, version) && Cmp(r.end.v, t) <= 0
  }

  lemma GreatestEndIsFirstClear(applicable: seq<Cve>, all: seq<Range>, version: Version, t: Version)
    requires |version| >= 2 && GreatestEnd(all, version, t)
    requires forall r :: r in all <==> exists cve :: cve in applicable && r in cve.ranges
    ensures IsFirstClear(applicable, version, t)
  {
    var last :| last in all && Affects(last, version) && EndsInBranch(last, version) && last.end.v == t;
    CmpOrder(version, t, version);
    forall cve, r | cve in applicable && r in cve.ranges && r.Usable() && r.Contains(version)
      ensures !r.Contains(t)
    {
      assert r in all;
      if r.exact.Is? {
        CmpOrder(version, r.exact.v, t);
        CmpOrder(t, r.exact.v, version);
        CmpOrder(r.exact.v, t, version);
      } else {
        CmpOrder(t, r.end.v, t);
      }
    }
    forall v: Version | Cmp(v, version) >= 0 && Clear(applicable, version, v)
      ensures Cmp(t, v) <= 0
    {
      var cve :| cve in applicable && last in cve.ranges;
      assert !last.Contains(v);
      CmpOrder(v, version, v);
      CmpOrder(v, t, v);
      if last.start.Is? {
        CmpOrder(last.start.v, version, v);
        CmpOrder(last.start.v, version, last.start.v);
        CmpOrder(v, last.start.v, v);
      }
    }
  }

  function Flatten(cves: seq<Cve>): seq<Range> {
    if cves == [] then [] else Flatten(cves[..|cves| - 1]) + cves[|cves| - 1].ranges
  }

  lemma {:induction false} FlattenMembers(cves: seq<Cve>, r: Range)
    ensures r in Flatten(cves) <==> exists cve :: cve in cves && r in cve.ranges
    decreases |cves|
  {
    if cves != [] {
      var (rest, last) := (cves[..|cves| - 1], cves[|cves| - 1]);
      FlattenMembers(rest, r);
      assert cves == rest + [last];
      if r in last.ranges { assert last in cves; }
      if exists cve :: cve in rest && r in cve.ranges {
        var cve :| cve in rest && r in cve.ranges;
        assert cve in cves;
      }
    }
  }

  /** One CVE: none when it has no fix in the branch, else the greater of the
      target so far and its own last end. */
  method RaiseTarget(ranges: seq<Range>, version: Version, before: Option<Version>, ghost seen: seq<Range>)
    returns (fixable: bool, target: Option<Version>)
    requires |version| >= 2
    requires if before.Some? then GreatestEnd(seen, version, before.value)
             else forall r | r in seen :: !Affects(r, version)
    ensures fixable == HasFix(ranges, version)
    ensures fixable ==> target.Some? && GreatestEnd(seen + ranges, version, target.value)
  {
    var any := false;
    target := before;
    for i := 0 to |ranges|
      invariant any <==> exists r :: r in ranges[..i] && Affects(r, version)
      invariant forall r | r in ranges[..i] && Affects(r, version) :: EndsInBranch(r, version)
      invariant any ==> target.Some?
      invariant if target.Some? then GreatestEnd(seen + ranges[..i], version, target.value)
                else forall r | r in seen + ranges[..i] :: !Affects(r, version)
    {
      var r := ranges[i];
      ghost var had := seen + ranges[..i];
      assert ranges[..i + 1] == ranges[..i] + [r];
      assert seen + ranges[..i + 1] == had + [r];
      if Affects(r, version) {
        any := true;
        if !EndsInBranch(r, version) {
          assert r in ranges;
          return false, target;
        }
        GreaterEnd(had, version, target, r);
        if target.None? || Cmp(r.end.v, target.value) > 0 { target := Some(r.end.v); }
      } else if target.Some? {
        assert forall q | q in had + [r] && Affects(q, version) :: q in had;
      }
    }
    assert ranges[..|ranges|] == ranges;
    fixable := any;
  }

  lemma GreaterEnd(had: seq<Range>, version: Version, target: Option<Version>, r: Range)
    requires |version| >= 2 && Affects(r, version) && EndsInBranch(r, version)
    requires if target.Some? then GreatestEnd(had, version, target.value)
             else forall q | q in had :: !Affects(q, version)
    ensures GreatestEnd(had + [r], version,
                        if target.None? || Cmp(r.end.v, target.value) > 0 then r.end.v else target.value)
  {
    CmpOrder(r.end.v, r.end.v, r.end.v);
    if target.Some? {
      var t := target.value;
      forall q | q in had && Affects(q, version)
        ensures EndsInBranch(q, version) && Cmp(q.end.v, if Cmp(r.end.v, t) > 0 then r.end.v else t) <= 0
      {
        CmpOrder(q.end.v, t, r.end.v);
        CmpOrder(t, r.end.v, t);
      }
      var q :| q in had && Affects(q, version) && EndsInBranch(q, version) && q.end.v == t;
      assert q in had + [r];
    }
    assert r in had + [r];
  }

  // ---------------------------------- when the fix leaves every range behind

  /** The interval ends after the moment given, or right at it where that is
      included. */
  predicate EndsFrom(a: Range, at: Version, included: bool)
    requires a.end.Is?
  {
    Cmp(a.end.v, at) > 0 || (Cmp(a.end.v, at) == 0 && included)
  }

  /** The other way: before, or right at it where that is included. */
  predicate EndsUpTo(a: Range, at: Version, included: bool)
    requires a.end.Is?
  {
    Cmp(a.end.v, at) < 0 || (Cmp(a.end.v, at) == 0 && included)
  }

  /** Some interval that takes the version in ends no earlier than that. */
  predicate SomeEndsFrom(rs: seq<Range>, version: Version, at: Version, included: bool)
    requires forall a | a in rs && Affects(a, version) :: a.end.Is?
  {
    exists a :: a in rs && Affects(a, version) && EndsFrom(a, at, included)
  }

  /** Every interval that takes the version in ends no later than that. */
  predicate AllEndUpTo(rs: seq<Range>, version: Version, at: Version, included: bool)
    requires forall a | a in rs && Affects(a, version) :: a.end.Is?
  {
    forall a | a in rs && Affects(a, version) :: EndsUpTo(a, at, included)
  }

  /** The range takes in where the intervals around the version end: an exact
      version that ties with the last of their ends, or an interval that has
      begun by then and goes on past all of them. */
  predicate Catches(r: Range, rs: seq<Range>, version: Version)
    requires r.Usable() && forall a | a in rs && Affects(a, version) :: a.end.Is?
  {
    if r.exact.Is? then SomeEndsFrom(rs, version, r.exact.v, true) && AllEndUpTo(rs, version, r.exact.v, true)
    else
      && (r.start.Is? ==> SomeEndsFrom(rs, version, r.start.v, r.startIncl))
      && (r.end.Is? ==> AllEndUpTo(rs, version, r.end.v, r.endIncl))
  }

  lemma SomeEndsFromIff(rs: seq<Range>, version: Version, t: Version, at: Version, included: bool)
    requires |version| >= 2 && GreatestEnd(rs, version, t)
    ensures SomeEndsFrom(rs, version, at, included) <==> Cmp(t, at) > 0 || (Cmp(t, at) == 0 && included)
  {
    var last :| last in rs && Affects(last, version) && EndsInBranch(last, version) && last.end.v == t;
    if Cmp(t, at) > 0 || (Cmp(t, at) == 0 && included) { assert EndsFrom(last, at, included); }
    forall a | a in rs && Affects(a, version) && EndsFrom(a, at, included)
      ensures Cmp(t, at) > 0 || (Cmp(t, at) == 0 && included)
    {
      CmpOrder(at, a.end.v, t);
      CmpOrder(a.end.v, at, a.end.v);
      CmpOrder(at, t, at);
    }
  }

  lemma AllEndUpToIff(rs: seq<Range>, version: Version, t: Version, at: Version, included: bool)
    requires |version| >= 2 && GreatestEnd(rs, version, t)
    ensures AllEndUpTo(rs, version, at, included) <==> Cmp(t, at) < 0 || (Cmp(t, at) == 0 && included)
  {
    var last :| last in rs && Affects(last, version) && EndsInBranch(last, version) && last.end.v == t;
    if AllEndUpTo(rs, version, at, included) { assert EndsUpTo(last, at, included); }
    if Cmp(t, at) < 0 || (Cmp(t, at) == 0 && included) {
      forall a | a in rs && Affects(a, version) ensures EndsUpTo(a, at, included) { CmpOrder(a.end.v, t, at); }
    }
  }

  /** The last of those ends lies in a range exactly when the range catches it. */
  lemma CatchesIff(r: Range, rs: seq<Range>, version: Version, t: Version)
    requires |version| >= 2 && GreatestEnd(rs, version, t) && r.Usable()
    ensures r.Contains(t) <==> Catches(r, rs, version)
  {
    hide SomeEndsFrom, AllEndUpTo, GreatestEnd, Affects;
    GreatestEndParts(rs, version, t);
    if r.exact.Is? {
      SomeEndsFromIff(rs, version, t, r.exact.v, true);
      AllEndUpToIff(rs, version, t, r.exact.v, true);
    } else {
      if r.start.Is? { SomeEndsFromIff(rs, version, t, r.start.v, r.startIncl); }
      if r.end.Is? { AllEndUpToIff(rs, version, t, r.end.v, r.endIncl); }
    }
  }

  lemma GreatestEndParts(rs: seq<Range>, version: Version, t: Version)
    requires |version| >= 2 && GreatestEnd(rs, version, t)
    ensures forall a | a in rs && Affects(a, version) :: a.end.Is?
  {
  }

  /** The version lies in no usable range of the CVEs. */
  ghost predicate AllBehind(cves: seq<Cve>, t: Version) {
    forall cve, r | cve in cves && r in cve.ranges && r.Usable() :: !r.Contains(t)
  }

  /** No usable range takes in where the intervals around the version end. */
  predicate NoneCatches(cves: seq<Cve>, version: Version)
    requires forall a | a in Flatten(cves) && Affects(a, version) :: a.end.Is?
  {
    forall r | r in Flatten(cves) && r.Usable() :: !Catches(r, Flatten(cves), version)
  }

  /** The release leaves every listed CVE behind exactly when no usable range
      catches it, which is a matter of the ranges and the shown version alone. */
  lemma FixLeavesAllIff(applicable: seq<Cve>, version: Version, t: Version)
    requires |version| >= 2 && GreatestEnd(Flatten(applicable), version, t)
    ensures AllBehind(applicable, t) <==> NoneCatches(applicable, version)
  {
    hide Catches, Flatten, Affects, EndsInBranch;
    GreatestEndParts(Flatten(applicable), version, t);
    forall r | r in Flatten(applicable) && r.Usable()
      ensures r.Contains(t) <==> Catches(r, Flatten(applicable), version)
    {
      CatchesIff(r, Flatten(applicable), version, t);
    }
    forall r ensures r in Flatten(applicable) <==> exists cve :: cve in applicable && r in cve.ranges {
      FlattenMembers(applicable, r);
    }
  }

  // ------------------------------------------------------- finding the fix

  /** A release of the shown branch past all ranges the version lies in: the
      first such; none when some CVE has no fix there. */
  method FixedIn(applicable: seq<Cve>, version: Version) returns (target: Option<Version>)
    requires |version| >= 2
    ensures target.Some? <==> applicable != [] && forall cve | cve in applicable :: HasFix(cve.ranges, version)
    ensures target.Some? ==>
      && IsFirstClear(applicable, version, target.value) && GreatestEnd(Flatten(applicable), version, target.value)
      && (AllBehind(applicable, target.value) <==> NoneCatches(applicable, version))
  {
    hide Catches, NoneCatches;
    target := None;
    for i := 0 to |applicable|
      invariant forall cve | cve in applicable[..i] :: HasFix(cve.ranges, version)
      invariant target.Some? <==> i > 0
      invariant if target.Some? then GreatestEnd(Flatten(applicable[..i]), version, target.value)
                else forall r | r in Flatten(applicable[..i]) :: !Affects(r, version)
    {
      assert applicable[..i + 1] == applicable[..i] + [applicable[i]];
      assert applicable[..i + 1][..i] == applicable[..i];
      var fixable, raised := RaiseTarget(applicable[i].ranges, version, target, Flatten(applicable[..i]));
      if !fixable {
        assert applicable[i] in applicable;
        return None;
      }
      target := raised;
    }
    assert applicable[..|applicable|] == applicable;
    if target.Some? {
      forall r ensures r in Flatten(applicable) <==> exists cve :: cve in applicable && r in cve.ranges {
        FlattenMembers(applicable, r);
      }
      GreatestEndIsFirstClear(applicable, Flatten(applicable), version, target.value);
      FixLeavesAllIff(applicable, version, target.value);
    }
  }

  /** The release found can still lie in another range of the same CVE, one
      the version shown does not lie in: 8.1.2 is told 8.1.3, which the next
      range takes in. */
  lemma FixCanBeAffected()
    ensures var (first, second) := (Range(Absent, Is([8, 1, 0]), true, Is([8, 1, 3]), false, false),
                                    Range(Absent, Is([8, 1, 3]), true, Is([8, 1, 7]), false, false));
      var applicable := [Cve("CVE-1", false, None, [first, second])];
      HasFix([first, second], [8, 1, 2])
      && (forall t: Version | IsFirstClear(applicable, [8, 1, 2], t) :: second.Contains(t))
      && IsFirstClear(applicable, [8, 1, 2], [8, 1, 3])
  {
    var first, second := Range(Absent, Is([8, 1, 0]), true, Is([8, 1, 3]), false, false),
                         Range(Absent, Is([8, 1, 3]), true, Is([8, 1, 7]), false, false);
    var version, fix: Version := [8, 1, 2], [8, 1, 3];
    CmpPatch(8, 1, 2, 0); CmpPatch(8, 1, 2, 3); CmpPatch(8, 1, 3, 3); CmpPatch(8, 1, 3, 7); CmpPatch(8, 1, 3, 2);
    assert first in [first, second] && Affects(first, version) && EndsInBranch(first, version);
    assert !Affects(second, version);
    var applicable := [Cve("CVE-1", false, None, [first, second])];
    var all := [first, second];
    assert GreatestEnd(all, version, fix);
    forall r ensures r in all <==> exists cve :: cve in applicable && r in cve.ranges {
      if r in all { assert applicable[0] in applicable && r in applicable[0].ranges; }
    }
    GreatestEndIsFirstClear(applicable, all, version, fix);
    forall t: Version | IsFirstClear(applicable, version, t) ensures second.Contains(t) {
      CmpOrder(version, fix, version);
      CmpOrder(version, t, version);
      assert Cmp(t, fix) <= 0 && Cmp(fix, t) <= 0;
      CmpOrder(t, fix, t);
      CmpOrder(t, fix, [8, 1, 7]);
    }
  }

  // ------------------------------------------------ the releases with the fix

  /** The ranges an advisory can use: unconditional ones with numbers. */
  predicate Plain(r: Range) {
    !r.conditional && r.Usable()
  }

  predicate Listed(ranges: seq<Range>) {
    exists r :: r in ranges && Plain(r)
  }

  /** Some plain range of the CVE has no exclusive end that is a release. */
  predicate LacksFix(ranges: seq<Range>) {
    exists r :: r in ranges && Plain(r) && FixOf(r).None?
  }

  /** The plain ranges of one CVE that name their fix. */
  method FixedRanges(ranges: seq<Range>) returns (listed: bool, lacksFix: bool, fixed: seq<Range>)
    ensures listed == Listed(ranges) && lacksFix == LacksFix(ranges)
    ensures forall r :: r in fixed <==> r in ranges && Plain(r) && FixOf(r).Some?
  {
    listed, lacksFix, fixed := false, false, [];
    for i := 0 to |ranges|
      invariant listed <==> exists r :: r in ranges[..i] && Plain(r)
      invariant lacksFix <==> exists r :: r in ranges[..i] && Plain(r) && FixOf(r).None?
      invariant forall r :: r in fixed <==> r in ranges[..i] && Plain(r) && FixOf(r).Some?
    {
      var r := ranges[i];
      assert ranges[..i + 1] == ranges[..i] + [r];
      if !Plain(r) { continue; }
      listed := true;
      if FixOf(r).None? { lacksFix := true; continue; }
      fixed := fixed + [r];
    }
    assert ranges[..|ranges|] == ranges;
  }

  /** The range is one of a CVE asked for that an advisory can use. */
  ghost predicate OfListed(byCve: map<string, seq<Range>>, ids: seq<string>, r: Range) {
    exists id :: id in ids && id in byCve && r in byCve[id] && Plain(r)
  }

  ghost function PlainOnes(ranges: seq<Range>): (plain: seq<Range>)
    ensures forall r :: r in plain <==> r in ranges && Plain(r)
  {
    if ranges == [] then []
    else
      assert ranges == ranges[..|ranges| - 1] + [ranges[|ranges| - 1]];
      PlainOnes(ranges[..|ranges| - 1]) + if Plain(ranges[|ranges| - 1]) then [ranges[|ranges| - 1]] else []
  }

  /** The plain ranges of the CVEs asked for. */
  ghost function AllPlain(byCve: map<string, seq<Range>>, ids: seq<string>): (plain: seq<Range>)
    ensures forall r :: r in plain <==> OfListed(byCve, ids, r)
    ensures forall r | r in plain :: Plain(r)
  {
    if ids == [] then []
    else
      var (init, last) := (ids[..|ids| - 1], ids[|ids| - 1]);
      OfListedNext(byCve, init, last);
      assert ids == init + [last];
      AllPlain(byCve, init) + if last in byCve then PlainOnes(byCve[last]) else []
  }

  lemma OfListedNext(byCve: map<string, seq<Range>>, ids: seq<string>, last: string)
    ensures forall r ::
      OfListed(byCve, ids + [last], r) <==>
      OfListed(byCve, ids, r) || (last in byCve && r in byCve[last] && Plain(r))
  {
    hide Plain;
    assert last in ids + [last];
  }

  /** The range takes in the fix's branch before its end, and no exclusive end
      in that branch is past it. */
  ghost predicate RunsOn(ranges: seq<Range>, r: Range, b: Branch)
    requires r.Usable()
  {
    var next: Version := [b.0, b.1 + 1, 0];
    && HoldsSome(r)
    && if r.exact.Is? then
         Cmp(r.exact.v, next) < 0 && forall q | q in ranges && Names(q, b) :: Cmp(FixOf(q).value, r.exact.v) <= 0
       else
         && (r.start.Absent? || Cmp(r.start.v, next) < 0)
         && (r.end.Absent? || forall q | q in ranges && Names(q, b) :: EndsPast(r, FixOf(q).value))
  }

  /** The range names its fix, in this branch. */
  predicate Names(r: Range, b: Branch) {
    FixOf(r).Some? && BranchOf(FixOf(r).value) == b
  }

  predicate EndsPast(r: Range, fix: Version)
    requires r.end.Is?
  {
    Cmp(fix, r.end.v) < 0 || (Cmp(fix, r.end.v) == 0 && r.endIncl)
  }

  lemma RunsOnIff(ranges: seq<Range>, fix: Version, r: Range)
    requires IsCandidate(ranges, fix) && r.Usable()
    ensures RunsOn(ranges, r, BranchOf(fix)) <==> HoldsSome(r) && Reaches(r, fix)
  {
    hide FixOf, HoldsSome;
    var named := NamedBy(ranges, fix);
    assert Names(named, BranchOf(fix));
    assert [BranchOf(fix).0, BranchOf(fix).1 + 1, 0] == NextBranch(fix);
    forall q | q in ranges && Names(q, BranchOf(fix))
      ensures r.exact.Is? && Cmp(fix, r.exact.v) <= 0 ==> Cmp(FixOf(q).value, r.exact.v) <= 0
      ensures r.end.Is? && EndsPast(r, fix) ==> EndsPast(r, FixOf(q).value)
    {
      if r.exact.Is? { CmpOrder(FixOf(q).value, fix, r.exact.v); }
      if r.end.Is? { CmpOrder(FixOf(q).value, fix, r.end.v); }
    }
    if r.exact.Is? { CmpOrder(fix, r.exact.v, fix); }
    if r.end.Is? { CmpOrder(fix, r.end.v, fix); }
  }

  /** From a branch's fix on, the branch is free of the flaws exactly when no
      range runs on past every end in it. */
  lemma FixSafeIff(ranges: seq<Range>, fix: Version)
    requires (forall r | r in ranges :: r.Usable()) && IsCandidate(ranges, fix)
    ensures SafeFrom(ranges, fix) <==> forall r | r in ranges :: !RunsOn(ranges, r, BranchOf(fix))
  {
    SafeIff(ranges, fix);
    hide Reaches, HoldsSome, RunsOn, SafeFrom, Range.Usable, IsCandidate;
    forall r | r in ranges ensures RunsOn(ranges, r, BranchOf(fix)) <==> HoldsSome(r) && Reaches(r, fix) {
      RunsOnIff(ranges, fix, r);
    }
  }

  /** One branch's fix is in the range of another: the first CVE is fixed in
      8.1.4, the second is from 8.0.0 on and only fixed in 8.2.1. */
  lemma FixInOtherRange()
    ensures var (first, second) := (Range(Absent, Is([8, 1, 0]), true, Is([8, 1, 4]), false, false),
                                    Range(Absent, Is([8, 0, 0]), true, Is([8, 2, 1]), false, false));
      var (byCve, ids) := (map["CVE-1" := [first], "CVE-2" := [second]], ["CVE-1", "CVE-2"]);
      && !LacksFix(byCve["CVE-1"]) && !LacksFix(byCve["CVE-2"])
      && IsCandidate(AllPlain(byCve, ids), [8, 1, 4]) && second.Contains([8, 1, 4])
      && !SafeFrom(AllPlain(byCve, ids), [8, 1, 4])
  {
    var (first, second) := (Range(Absent, Is([8, 1, 0]), true, Is([8, 1, 4]), false, false),
                            Range(Absent, Is([8, 0, 0]), true, Is([8, 2, 1]), false, false));
    var (byCve, ids) := (map["CVE-1" := [first], "CVE-2" := [second]], ["CVE-1", "CVE-2"]);
    var fix: Version := [8, 1, 4];
    hide AllPlain, Cmp, FixOf, SafeFrom;
    TwoListed(byCve, ids, first, second);
    OtherRange();
    NotSafe(AllPlain(byCve, ids), second, fix);
  }

  lemma OtherRange()
    ensures var (first, second) := (Range(Absent, Is([8, 1, 0]), true, Is([8, 1, 4]), false, false),
                                    Range(Absent, Is([8, 0, 0]), true, Is([8, 2, 1]), false, false));
      && FixOf(first) == Some([8, 1, 4]) && FixOf(second) == Some([8, 2, 1])
      && Cmp([8, 1, 4], [8, 1, 4]) == 0 && second.Contains([8, 1, 4])
  {
    ThreeNumbers([8, 1, 4]);
    ThreeNumbers([8, 2, 1]);
    CmpDecidedAt([8, 1, 4], [8, 0, 0], 0, 1, 3);
    CmpDecidedAt([8, 1, 4], [8, 2, 1], 0, 1, 3);
    CmpOrder([8, 1, 4], [8, 1, 4], [8, 1, 4]);
  }

  lemma ThreeNumbers(v: Version)
    requires |v| == 3
    ensures Release(Is(v)) == Some(v)
  {
    assert v + seq(0, _ => 0) == v;
  }

  lemma NotSafe(ranges: seq<Range>, r: Range, fix: Version)
    requires (forall r | r in ranges :: r.Usable()) && IsRelease(fix) && r in ranges && r.Contains(fix)
    ensures !SafeFrom(ranges, fix)
  {
    ReleaseBeforeNext(fix);
    CmpOrder(fix, fix, fix);
    assert FromOn(fix, fix);
  }

  lemma TwoListed(byCve: map<string, seq<Range>>, ids: seq<string>, first: Range, second: Range)
    requires byCve == map["CVE-1" := [first], "CVE-2" := [second]] && ids == ["CVE-1", "CVE-2"]
    requires Plain(first) && Plain(second)
    ensures forall r :: r in AllPlain(byCve, ids) <==> r == first || r == second
  {
    hide AllPlain;
    assert ids[0] in ids && ids[1] in ids;
    assert OfListed(byCve, ids, first) && OfListed(byCve, ids, second);
    forall r | OfListed(byCve, ids, r) ensures r == first || r == second {
      var id :| id in ids && id in byCve && r in byCve[id];
    }
  }


  /** Every version from the branch's fix on is out of the range. */
  ghost predicate PastFix(r: Range, fixed: seq<Version>)
    requires FixOf(r).Some?
  {
    exists fix :: fix in fixed && BranchOf(fix) == BranchOf(FixOf(r).value)
               && forall v: Version | Cmp(fix, v) <= 0 :: r.Usable() && !r.Contains(v)
  }

  /** The branch's fix is there, and is this one or a later one. */
  ghost predicate GreatestOfBranch(fix: Version, fixed: seq<Version>) {
    exists last :: last in fixed && BranchOf(last) == BranchOf(fix) && Cmp(fix, last) <= 0
  }

  /** They are the unconditional ranges with readable ends of the CVEs asked for. */
  lemma AllPlainIff(byCve: map<string, seq<Range>>, ids: seq<string>, r: Range)
    ensures r in AllPlain(byCve, ids) <==>
      !r.conditional && r.Usable() && exists id :: id in ids && id in byCve && r in byCve[id]
  {
    if r in AllPlain(byCve, ids) { assert OfListed(byCve, ids, r); }
    if id :| id in ids && id in byCve && r in byCve[id] && Plain(r) { assert OfListed(byCve, ids, r); }
  }

  method Earliest(starts: seq<Version>) returns (least: Version)
    requires starts != []
    ensures least in starts && forall s | s in starts :: Cmp(least, s) <= 0
  {
    least := starts[0];
    CmpOrder(least, least, least);
    for i := 1 to |starts|
      invariant least in starts && forall s | s in starts[..i] :: Cmp(least, s) <= 0
    {
      assert starts[..i + 1] == starts[..i] + [starts[i]];
      if Cmp(starts[i], least) < 0 {
        forall s | s in starts[..i] ensures Cmp(starts[i], s) <= 0 { CmpOrder(starts[i], least, s); }
        CmpOrder(starts[i], starts[i], starts[i]);
        least := starts[i];
      } else {
        CmpOrder(least, starts[i], least);
      }
    }
    assert starts[..|starts|] == starts;
  }

  /** The starts of the ranges, when every one of them starts at a release. */
  method Starts(ranges: seq<Range>) returns (every: bool, starts: seq<Version>)
    ensures every <==> forall r | r in ranges :: Release(r.start).Some?
    ensures forall s :: s in starts <==> exists r :: r in ranges && Release(r.start) == Some(s)
  {
    every, starts := true, [];
    for i := 0 to |ranges|
      invariant every <==> forall r | r in ranges[..i] :: Release(r.start).Some?
      invariant forall s :: s in starts <==> exists r :: r in ranges[..i] && Release(r.start) == Some(s)
    {
      assert ranges[..i + 1] == ranges[..i] + [ranges[i]];
      var start := Release(ranges[i].start);
      if start.None? { every := false; } else { starts := starts + [start.value]; }
    }
    assert ranges[..|ranges|] == ranges;
  }

  /** The first of the two is asked for before the second is. */
  ghost predicate AskedBefore(ids: seq<string>, a: string, b: string) {
    exists k :: 0 <= k < |ids| && ids[k] == a && b !in ids[..k + 1]
  }

  ghost predicate AsAsked(ids: seq<string>, some: seq<string>) {
    forall i, j | 0 <= i < j < |some| :: AskedBefore(ids, some[i], some[j])
  }

  lemma NothingAsked(ids: seq<string>)
    ensures AsAsked(ids, [])
  {
  }

  /** Nobody is asked for before himself: the list has no one twice. */
  lemma AsAskedOnce(ids: seq<string>, some: seq<string>)
    requires AsAsked(ids, some)
    ensures forall i, j | 0 <= i < j < |some| :: some[i] != some[j]
  {
    forall i, j | 0 <= i < j < |some| ensures some[i] != some[j] {
      assert AskedBefore(ids, some[i], some[j]);
    }
  }

  lemma AskedNext(ids: seq<string>, i: nat, some: seq<string>)
    requires i < |ids| && AsAsked(ids[..i], some)
    ensures AsAsked(ids[..i + 1], some)
    ensures ids[i] !in ids[..i] && (forall id | id in some :: id in ids[..i]) ==> AsAsked(ids[..i + 1], some + [ids[i]])
  {
    var (before, now) := (ids[..i], ids[..i + 1]);
    forall a, b | AskedBefore(before, a, b) ensures AskedBefore(now, a, b) {
      var k :| 0 <= k < |before| && before[k] == a && b !in before[..k + 1];
      assert now[..k + 1] == before[..k + 1] && now[k] == a;
    }
    if ids[i] !in before && forall id | id in some :: id in before {
      forall id | id in some ensures AskedBefore(now, id, ids[i]) {
        var k :| 0 <= k < |before| && before[k] == id;
        assert now[..k + 1] == before[..k + 1] && now[k] == id;
      }
    }
  }

  /** Every CVE asked for once, in order: those listed, those of them without
      a fix, and all their ranges that name a fix. */
  method Gather(byCve: map<string, seq<Range>>, ids: seq<string>)
    returns (listed: seq<string>, withoutFix: seq<string>, gathered: seq<Range>)
    ensures forall id :: id in listed <==> id in ids && id in byCve && Listed(byCve[id])
    ensures forall id :: id in withoutFix <==> id in listed && LacksFix(byCve[id])
    ensures AsAsked(ids, listed) && AsAsked(ids, withoutFix)
    ensures forall i, j | 0 <= i < j < |listed| :: listed[i] != listed[j]
    ensures forall r :: r in gathered <==> r in AllPlain(byCve, ids) && FixOf(r).Some?
    ensures forall r | r in gathered :: Plain(r) && FixOf(r).Some?
  {
    hide AsAsked, Plain, FixOf;
    listed, withoutFix, gathered := [], [], [];
    NothingAsked(ids[..0]);
    for i := 0 to |ids|
      invariant forall id :: id in listed <==> id in ids[..i] && id in byCve && Listed(byCve[id])
      invariant forall id :: id in withoutFix <==> id in listed && LacksFix(byCve[id])
      invariant AsAsked(ids[..i], listed) && AsAsked(ids[..i], withoutFix)
      invariant forall r :: r in gathered <==> r in AllPlain(byCve, ids[..i]) && FixOf(r).Some?
    {
      var id := ids[i];
      GatherOne(byCve, ids, i);
      AskedNext(ids, i, listed);
      AskedNext(ids, i, withoutFix);
      assert ids[..i + 1] == ids[..i] + [id];
      if id !in ids[..i] && id in byCve {
        var isListed, lacksFix, own := FixedRanges(byCve[id]);
        if isListed { listed := listed + [id]; }
        if lacksFix { withoutFix := withoutFix + [id]; }
        gathered := gathered + own;
      }
    }
    assert ids[..|ids|] == ids;
    AsAskedOnce(ids, listed);
  }

  /** The greatest fix of each branch some range names one in, newest branch
      first. */
  ghost predicate FixList(ranges: seq<Range>, fixed: seq<Version>) {
    NewestBranchFirst(fixed) && forall fix :: fix in fixed <==> IsCandidate(ranges, fix)
  }

  /** The oldest start of a range that names its fix; given when all of these
      start at a release, one of them before the newest fix. */
  ghost predicate OldestStart(ranges: seq<Range>, fixed: seq<Version>, introduced: Option<Version>) {
    && (introduced.Some? <==>
          && fixed != [] && (forall r | r in ranges && FixOf(r).Some? :: Release(r.start).Some?)
          && exists r :: r in ranges && FixOf(r).Some? && StartsBefore(r, fixed[0]))
    && (introduced.Some? ==>
          && fixed != [] && Cmp(introduced.value, fixed[0]) < 0
          && (exists r :: r in ranges && FixOf(r).Some? && Release(r.start) == introduced)
          && forall r | r in ranges && FixOf(r).Some? ::
               !StartsBefore(r, introduced.value) && StartsFrom(r, introduced.value))
  }

  /** No range without a fix begins before every start of those with one. */
  ghost predicate NoneBeginsEarlier(ranges: seq<Range>)
    requires forall r | r in ranges :: r.Usable()
  {
    forall r | r in ranges && FixOf(r).None? && HoldsSome(r) :: BeginsLater(ranges, r)
  }

  /** The CVEs the data lists and those of them with a range that names no fix;
      of the ranges that do name one, the fix per branch and the oldest start.
      Says when a fix is free of all the ranges, and when none begins earlier. */
  method FixReleases(byCve: map<string, seq<Range>>, ids: seq<string>)
    returns (listed: seq<string>, withoutFix: seq<string>, fixed: seq<Version>, introduced: Option<Version>)
    ensures forall id :: id in listed <==> id in ids && id in byCve && Listed(byCve[id])
    ensures forall id :: id in withoutFix <==> id in listed && LacksFix(byCve[id])
    ensures AsAsked(ids, listed) && AsAsked(ids, withoutFix)
    ensures forall i, j | 0 <= i < j < |listed| :: listed[i] != listed[j]
    ensures FixList(AllPlain(byCve, ids), fixed)
    ensures forall r | r in AllPlain(byCve, ids) && FixOf(r).Some? ::
      PastFix(r, fixed) && GreatestOfBranch(FixOf(r).value, fixed)
    ensures forall id, r | id in listed && id !in withoutFix && r in byCve[id] && Plain(r) ::
      FixOf(r).Some? && PastFix(r, fixed)
    ensures forall fix | fix in fixed ::
      SafeFrom(AllPlain(byCve, ids), fix) <==>
      forall r | r in AllPlain(byCve, ids) :: !RunsOn(AllPlain(byCve, ids), r, BranchOf(fix))
    ensures OldestStart(AllPlain(byCve, ids), fixed, introduced)
    ensures introduced.Some? ==>
      ((forall r | r in AllPlain(byCve, ids) :: StartsFrom(r, introduced.value)) <==>
       NoneBeginsEarlier(AllPlain(byCve, ids)))
  {
    hide Cmp, FixOf, Release, Range.Usable, Plain, Listed, LacksFix, PastFix, StartsFrom, IsCandidate, AllPlain, Newer;
    hide AsAsked, StartsBefore, GreatestOfBranch, OfListed, SafeFrom, RunsOn, FixList, OldestStart, NoneBeginsEarlier;
    var gathered: seq<Range>;
    listed, withoutFix, gathered := Gather(byCve, ids);
    ghost var ranges := AllPlain(byCve, ids);
    AreUsable(ranges);
    fixed := FixPerBranch(gathered);
    NamedOnes(ranges, gathered, fixed);
    forall id, r | id in listed && id !in withoutFix && r in byCve[id] && Plain(r)
      ensures FixOf(r).Some? && PastFix(r, fixed)
    {
      FixNamed(byCve, ids, id, r);
    }
    forall r | r in ranges && FixOf(r).Some? ensures PastFix(r, fixed) && GreatestOfBranch(FixOf(r).value, fixed) {
      GreatestFix(gathered, fixed, r);
    }
    forall fix | fix in fixed
      ensures IsRelease(fix) && (SafeFrom(ranges, fix) <==> forall r | r in ranges :: !RunsOn(ranges, r, BranchOf(fix)))
    {
      FixListed(ranges, fixed, fix);
      FixSafeIff(ranges, fix);
    }
    introduced := Introduced(gathered, fixed);
    NamedStart(ranges, gathered, fixed, introduced);
    if introduced.Some? { BeginsEarlierIff(ranges, fixed, introduced); }
  }

  lemma AreUsable(ranges: seq<Range>)
    requires forall r | r in ranges :: Plain(r)
    ensures forall r | r in ranges :: r.Usable()
  {
  }

  lemma NamedOnes(ranges: seq<Range>, gathered: seq<Range>, fixed: seq<Version>)
    requires FixList(gathered, fixed) && forall r :: r in gathered <==> r in ranges && FixOf(r).Some?
    ensures FixList(ranges, fixed)
  {
    hide FixOf, Cmp;
    forall v ensures IsCandidate(ranges, v) <==> IsCandidate(gathered, v) {
      if r :| r in ranges && FixOf(r) == Some(v) { assert r in gathered; }
    }
  }

  lemma FixListed(ranges: seq<Range>, fixed: seq<Version>, fix: Version)
    requires FixList(ranges, fixed) && fix in fixed
    ensures IsCandidate(ranges, fix) && IsRelease(fix)
  {
  }

  lemma NamedStart(ranges: seq<Range>, gathered: seq<Range>, fixed: seq<Version>, introduced: Option<Version>)
    requires OldestStart(gathered, fixed, introduced) && forall r :: r in gathered <==> r in ranges && FixOf(r).Some?
    ensures OldestStart(ranges, fixed, introduced)
  {
    hide FixOf, Cmp, Release, StartsFrom, StartsBefore;
  }

  // -------------------------------------------- does the oldest start come first

  /** Where the range begins; without a start it is version 0. */
  function LowerEnd(r: Range): Version
    requires r.Usable()
  {
    if r.exact.Is? then r.exact.v else if r.start.Is? then r.start.v else [0]
  }

  /** Some range that names its fix starts at or before where this one begins. */
  ghost predicate BeginsLater(ranges: seq<Range>, r: Range)
    requires r.Usable()
  {
    exists q :: q in ranges && FixOf(q).Some? && StartsUpTo(q, LowerEnd(r))
  }

  predicate StartsUpTo(q: Range, v: Version) {
    Release(q.start).Some? && Cmp(Release(q.start).value, v) <= 0
  }

  /** A range that holds anything holds something before every version after
      the one it begins at. */
  lemma StartsFromIff(r: Range, release: Version)
    requires r.Usable()
    ensures StartsFrom(r, release) <==> (HoldsSome(r) ==> Cmp(release, LowerEnd(r)) <= 0)
  {
    NonEmptyIff(r);
    if HoldsSome(r) {
      var w: Version :| r.Contains(w);
      if Cmp(release, LowerEnd(r)) <= 0 {
        forall v: Version | Cmp(v, release) < 0 ensures !r.Contains(v) { NothingBelow(r, release, v); }
      } else {
        var v := SomethingBelow(r, release, w);
      }
    }
  }

  lemma NothingBelow(r: Range, release: Version, v: Version)
    requires r.Usable() && Cmp(release, LowerEnd(r)) <= 0 && Cmp(v, release) < 0
    ensures !r.Contains(v)
  {
    CmpOrder(v, release, LowerEnd(r));
    ZeroIsLeast(v, 0, Width([0], v));
    CmpOrder(v, [0], v);
  }

  lemma SomethingBelow(r: Range, release: Version, w: Version) returns (v: Version)
    requires r.Usable() && r.Contains(w) && Cmp(release, LowerEnd(r)) > 0
    ensures r.Contains(v) && Cmp(v, release) < 0
  {
    var low := LowerEnd(r);
    CmpOrder(low, release, low);
    CmpOrder(low, low, low);
    if Cmp(w, release) < 0 {
      v := w;
    } else if r.exact.Is? || r.start.Absent? {
      v := low;
      CmpOrder(w, low, release);
      ZeroIsLeast(w, 0, Width([0], w));
      if r.end.Is? { CmpOrder([0], w, r.end.v); }
    } else {
      v := JustAbove(low, release);
      CmpDense(low, release);
      CmpOrder(low, v, low);
      CmpOrder(release, w, release);
      CmpOrder(v, release, w);
      if r.end.Is? { CmpOrder(v, w, r.end.v); }
    }
  }

  /** No range begins before the oldest start exactly when each without a fix
      begins at or after the start of one that has its fix. */
  lemma BeginsEarlierIff(ranges: seq<Range>, fixed: seq<Version>, introduced: Option<Version>)
    requires (forall r | r in ranges :: r.Usable()) && OldestStart(ranges, fixed, introduced) && introduced.Some?
    ensures (forall r | r in ranges :: StartsFrom(r, introduced.value)) <==> NoneBeginsEarlier(ranges)
  {
    hide FixOf, HoldsSome, StartsFrom, Range.Usable, Release, Cmp, LowerEnd;
    var least := introduced.value;
    var first :| first in ranges && FixOf(first).Some? && Release(first.start) == introduced;
    forall r | r in ranges && FixOf(r).None? && HoldsSome(r) ensures StartsFrom(r, least) <==> BeginsLater(ranges, r) {
      StartsFromIff(r, least);
      if Cmp(least, LowerEnd(r)) <= 0 { assert StartsUpTo(first, LowerEnd(r)); }
      if BeginsLater(ranges, r) {
        var q :| q in ranges && FixOf(q).Some? && StartsUpTo(q, LowerEnd(r));
        assert !StartsBefore(q, least);
        CmpOrder(least, Release(q.start).value, least);
        CmpOrder(least, Release(q.start).value, LowerEnd(r));
      }
    }
    forall r | r in ranges && !HoldsSome(r) ensures StartsFrom(r, least) { StartsFromIff(r, least); }
  }

  /** The oldest start is not the release the oldest flaw came in with: the
      second CVE has no fix, its range no start, and takes in version 7. */
  lemma OlderWithoutFix()
    ensures var (first, second) := (Range(Absent, Is([8, 1, 0]), true, Is([8, 1, 4]), false, false),
                                    Range(Absent, Absent, false, Is([8, 0, 30]), true, false));
      var (byCve, ids) := (map["CVE-1" := [first], "CVE-2" := [second]], ["CVE-1", "CVE-2"]);
      && Listed(byCve["CVE-2"]) && second.Contains([7]) && !StartsFrom(second, [8, 1, 0])
      && forall fixed, introduced |
           FixList(AllPlain(byCve, ids), fixed) && OldestStart(AllPlain(byCve, ids), fixed, introduced) ::
           introduced == Some([8, 1, 0])
  {
    var (first, second) := (Range(Absent, Is([8, 1, 0]), true, Is([8, 1, 4]), false, false),
                            Range(Absent, Absent, false, Is([8, 0, 30]), true, false));
    var (byCve, ids) := (map["CVE-1" := [first], "CVE-2" := [second]], ["CVE-1", "CVE-2"]);
    assert Plain(second) && second in byCve["CVE-2"];
    hide AllPlain, Cmp, FixOf, Release, StartsFrom, OldestStart, FixList;
    TwoListed(byCve, ids, first, second);
    Startless();
    var ranges := AllPlain(byCve, ids);
    forall fixed, introduced | FixList(ranges, fixed) && OldestStart(ranges, fixed, introduced)
      ensures introduced == Some([8, 1, 0])
    {
      OneNamed(ranges, first, fixed, introduced);
    }
  }

  lemma Startless()
    ensures var (first, second) := (Range(Absent, Is([8, 1, 0]), true, Is([8, 1, 4]), false, false),
                                    Range(Absent, Absent, false, Is([8, 0, 30]), true, false));
      && FixOf(first) == Some([8, 1, 4]) && FixOf(second) == None && Release(first.start) == Some([8, 1, 0])
      && Cmp([8, 1, 0], [8, 1, 4]) < 0 && second.Contains([7]) && !StartsFrom(second, [8, 1, 0])
  {
    ThreeNumbers([8, 1, 0]);
    ThreeNumbers([8, 1, 4]);
    CmpPatch(8, 1, 0, 4);
    CmpDecidedAt([7], [8, 0, 30], 0, 0, 3);
    CmpDecidedAt([7], [8, 1, 0], 0, 0, 3);
    var v: Version := [7];
    var second := Range(Absent, Absent, false, Is([8, 0, 30]), true, false);
    assert Cmp(v, [8, 1, 0]) < 0 && second.Usable() && second.Contains(v);
  }

  /** Where one range alone names its fix, that is the fix, and its start the
      oldest. */
  lemma OneNamed(ranges: seq<Range>, r: Range, fixed: seq<Version>, introduced: Option<Version>)
    requires r in ranges && FixOf(r).Some? && forall q | q in ranges && FixOf(q).Some? :: q == r
    requires Release(r.start).Some? && StartsBefore(r, FixOf(r).value)
    requires FixList(ranges, fixed) && OldestStart(ranges, fixed, introduced)
    ensures introduced == Release(r.start)
  {
    hide FixOf, Release, Cmp, StartsFrom;
    CmpOrder(FixOf(r).value, FixOf(r).value, FixOf(r).value);
    assert IsCandidate(ranges, FixOf(r).value);
    assert IsCandidate(ranges, fixed[0]);
  }

  lemma GreatestFix(gathered: seq<Range>, fixed: seq<Version>, r: Range)
    requires r in gathered && FixOf(r).Some? && PastFix(r, fixed) && FixList(gathered, fixed)
    ensures GreatestOfBranch(FixOf(r).value, fixed)
  {
    var fix :| fix in fixed && BranchOf(fix) == BranchOf(FixOf(r).value)
               && forall v: Version | Cmp(fix, v) <= 0 :: r.Usable() && !r.Contains(v);
    assert IsCandidate(gathered, fix);
  }

  lemma NamedBy(gathered: seq<Range>, fix: Version) returns (r: Range)
    requires IsCandidate(gathered, fix)
    ensures r in gathered && FixOf(r) == Some(fix)
  {
    r :| r in gathered && FixOf(r) == Some(fix);
  }

  lemma FixNamed(byCve: map<string, seq<Range>>, ids: seq<string>, id: string, r: Range)
    requires id in ids && id in byCve && r in byCve[id] && Plain(r) && !LacksFix(byCve[id])
    ensures FixOf(r).Some? && r in AllPlain(byCve, ids)
  {
    assert OfListed(byCve, ids, r);
  }

  /** The greatest fix of every branch, newest branch first. */
  method FixPerBranch(gathered: seq<Range>) returns (fixed: seq<Version>)
    requires forall r | r in gathered :: Plain(r) && FixOf(r).Some?
    ensures FixList(gathered, fixed) && (gathered != [] ==> fixed != [])
    ensures forall r | r in gathered :: PastFix(r, fixed)
  {
    hide Cmp, FixOf, Release, Range.Usable, Newer;
    var candidates := Candidates(gathered);
    var order := NewestFirst(candidates.Keys);
    fixed := [];
    for i := 0 to |order|
      invariant NewestBranchFirst(fixed) && |fixed| == i
      invariant forall fix | fix in fixed :: IsCandidate(gathered, fix)
      invariant forall fix, j | fix in fixed && i <= j < |order| :: Newer(BranchOf(fix), order[j])
      invariant forall j | 0 <= j < i :: candidates[order[j]] in fixed
    {
      fixed := fixed + [candidates[order[i]]];
    }
    forall r | r in gathered ensures PastFix(r, fixed) {
      var fix := candidates[BranchOf(FixOf(r).value)];
      IsPastFix(r, fix);
      assert BranchOf(FixOf(r).value) in order && fix in fixed;
    }
    forall v | IsCandidate(gathered, v) ensures v in fixed { assert BranchOf(v) in order; }
    if gathered != [] {
      assert gathered[0] in gathered;
      assert PastFix(gathered[0], fixed);
    }
  }

  /** No version before the release lies in the range. */
  ghost predicate StartsFrom(r: Range, release: Version) {
    forall v: Version | Cmp(v, release) < 0 && r.Usable() :: !r.Contains(v)
  }

  /** The range starts at a release before the one given. */
  predicate StartsBefore(r: Range, release: Version) {
    Release(r.start).Some? && Cmp(Release(r.start).value, release) < 0
  }

  lemma SomeStart(gathered: seq<Range>, starts: seq<Version>)
    requires forall s :: s in starts <==> exists r :: r in gathered && Release(r.start) == Some(s)
    requires gathered != [] && Release(gathered[0].start).Some?
    ensures starts != []
  {
    assert Release(gathered[0].start) == Some(Release(gathered[0].start).value);
    assert Release(gathered[0].start).value in starts;
  }

  /** The oldest start of the ranges given, unless one has no start or even the
      newest fix is not after it. */
  method Introduced(gathered: seq<Range>, fixed: seq<Version>) returns (introduced: Option<Version>)
    requires forall r | r in gathered :: Plain(r) && FixOf(r).Some?
    requires gathered != [] ==> fixed != []
    ensures OldestStart(gathered, fixed, introduced)
  {
    hide OldestStart, Release, StartsFrom, StartsBefore, FixOf, Plain;
    var every, starts := Starts(gathered);
    if gathered != [] && Release(gathered[0].start).Some? { SomeStart(gathered, starts); }
    if !every || starts == [] {
      NoOldest(gathered, fixed);
      return None;
    }
    var least := Earliest(starts);
    LeastStart(gathered, fixed, starts, least);
    introduced := if Cmp(least, fixed[0]) >= 0 then None else Some(least);
  }

  lemma NoOldest(gathered: seq<Range>, fixed: seq<Version>)
    requires forall r | r in gathered :: FixOf(r).Some?
    requires gathered == [] || exists r :: r in gathered && Release(r.start).None?
    ensures OldestStart(gathered, fixed, None)
  {
    hide Release, FixOf, StartsFrom, StartsBefore;
  }

  lemma LeastStart(gathered: seq<Range>, fixed: seq<Version>, starts: seq<Version>, least: Version)
    requires (forall r | r in gathered :: Plain(r) && FixOf(r).Some? && Release(r.start).Some?) && fixed != []
    requires forall s :: s in starts <==> exists r :: r in gathered && Release(r.start) == Some(s)
    requires least in starts && forall s | s in starts :: Cmp(least, s) <= 0
    ensures OldestStart(gathered, fixed, if Cmp(least, fixed[0]) >= 0 then None else Some(least))
  {
    hide Release, FixOf, StartsFrom, StartsBefore, Cmp;
    forall r | r in gathered
      ensures !StartsBefore(r, least) && StartsFrom(r, least)
      ensures Cmp(least, fixed[0]) >= 0 ==> !StartsBefore(r, fixed[0])
      ensures Release(r.start) == Some(least) && Cmp(least, fixed[0]) < 0 ==> StartsBefore(r, fixed[0])
    {
      assert Release(r.start) == Some(Release(r.start).value);
      assert Release(r.start).value in starts;
      StartsAfter(r, least, fixed[0]);
    }
  }

  lemma StartsAfter(r: Range, least: Version, newest: Version)
    requires Plain(r) && FixOf(r).Some? && Release(r.start).Some? && Cmp(least, Release(r.start).value) <= 0
    ensures !StartsBefore(r, least) && StartsFrom(r, least)
    ensures Cmp(least, newest) >= 0 ==> !StartsBefore(r, newest)
    ensures Release(r.start) == Some(least) && Cmp(least, newest) < 0 ==> StartsBefore(r, newest)
  {
    var start := Release(r.start).value;
    CmpOrder(least, start, least);
    CmpOrder(newest, least, start);
    CmpOrder(newest, start, newest);
    CmpOrder(least, newest, least);
    forall v: Version | Cmp(v, least) < 0 ensures !r.Contains(v) {
      CmpOrder(v, least, start);
      CmpOrder(v, start, r.start.v);
    }
  }

  lemma GatherOne(byCve: map<string, seq<Range>>, ids: seq<string>, i: nat)
    requires i < |ids|
    ensures forall r ::
      r in AllPlain(byCve, ids[..i + 1]) <==>
      r in AllPlain(byCve, ids[..i]) || (ids[i] in byCve && r in byCve[ids[i]] && Plain(r))
  {
    hide Plain, OfListed;
    assert ids[..i + 1] == ids[..i] + [ids[i]];
    OfListedNext(byCve, ids[..i], ids[i]);
  }

  lemma IsPastFix(r: Range, fix: Version)
    requires Plain(r) && FixOf(r).Some? && Cmp(FixOf(r).value, fix) <= 0
    ensures forall v: Version | Cmp(fix, v) <= 0 :: !r.Contains(v)
  {
    forall v: Version | Cmp(fix, v) <= 0 ensures !r.Contains(v) {
      CmpOrder(FixOf(r).value, fix, v);
      CmpOrder(r.end.v, FixOf(r).value, v);
      CmpOrder(v, r.end.v, v);
      CmpOrder(FixOf(r).value, r.end.v, FixOf(r).value);
    }
  }
}
