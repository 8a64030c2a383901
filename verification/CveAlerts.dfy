/** New known CVEs for monitored versions (cve_alerts.py): what is taken stock
    of silently, what is reported, and how often.

    What applies to a version is asked of an oracle that may answer anything
    at every comparison, and any comparison may be broken off. */
module CveAlerts {
  import opened Common

  type MonitorId = nat
  type ScanId = nat
  type CveId = string

  /** A product in the version a scan measured. */
  datatype Software = Software(product: string, raw: string)

  /** The CVEs that apply, each with whether it is listed as exploited. */
  type Applicable = map<CveId, bool>

  type KnownKey = (MonitorId, Software, CveId)

  /** One monitor event: the CVEs that are new, and those now listed as exploited. */
  datatype Report = Report(monitor: MonitorId, software: Software, added: set<CveId>, exploited: set<CveId>)

  datatype State = State(known: map<KnownKey, bool>, noted: map<MonitorId, ScanId>, reports: seq<Report>)

  datatype Monitor = Monitor(id: MonitorId, lastScan: Option<ScanId>)

  /** Where an exception ends the work on a monitor: nowhere, ahead of one of
      its versions, or between the report on one and remembering it. */
  datatype Trouble = Nowhere | Ahead(at: nat) | Told(at: nat)

  /** What a comparison reads besides its own tables, and what goes wrong. */
  datatype World = World(existing: set<MonitorId>, active: seq<Monitor>, measured: map<ScanId, seq<Software>>,
                         current: Software -> bool, applicable: Software -> Applicable, trouble: Monitor -> Trouble)

  // -------------------------------------------------------------- the elements

  function Entries(m: MonitorId, sw: Software, found: Applicable): map<KnownKey, bool> {
    map id | id in found :: (m, sw, id) := found[id]
  }

  /** The CVEs of one version become known. */
  function Remember(known: map<KnownKey, bool>, m: MonitorId, sw: Software, found: Applicable): map<KnownKey, bool> {
    known + Entries(m, sw, found)
  }

  function RememberAll(known: map<KnownKey, bool>, m: MonitorId, sws: seq<Software>, world: World)
    : map<KnownKey, bool>
  {
    if sws == [] then known
    else
      var (init, last) := (sws[..|sws| - 1], sws[|sws| - 1]);
      Remember(RememberAll(known, m, init, world), m, last, world.applicable(last))
  }

  function OfOthers(known: map<KnownKey, bool>, m: MonitorId): map<KnownKey, bool> {
    map k | k in known && k.0 != m :: known[k]
  }

  /** Take stock: what applies now is known, and nothing is reported. */
  function Stocked(s: State, m: MonitorId, scan: ScanId, sws: seq<Software>, world: World): State {
    State(RememberAll(OfOthers(s.known, m), m, sws, world), s.noted[m := scan], s.reports)
  }

  function Fresh(s: State, m: MonitorId, sw: Software, found: Applicable): set<CveId> {
    set id | id in found && (m, sw, id) !in s.known
  }

  function NowExploited(s: State, m: MonitorId, sw: Software, found: Applicable): set<CveId> {
    set id | id in found && found[id] && (m, sw, id) in s.known && !s.known[(m, sw, id)]
  }

  /** Report what was not there before. */
  function Reported(s: State, m: MonitorId, sw: Software, found: Applicable): State {
    var (added, exploited) := (Fresh(s, m, sw, found), NowExploited(s, m, sw, found));
    if added == {} && exploited == {} then s else s.(reports := s.reports + [Report(m, sw, added, exploited)])
  }

  /** Compare one version with the data: report, then remember all of it. */
  function Compared(s: State, m: MonitorId, sw: Software, found: Applicable): State {
    Reported(s, m, sw, found).(known := Remember(s.known, m, sw, found))
  }

  function ComparedAll(s: State, m: MonitorId, sws: seq<Software>, world: World): State {
    if sws == [] then s
    else
      var (before, last) := (ComparedAll(s, m, sws[..|sws| - 1], world), sws[|sws| - 1]);
      if world.current(last) then Compared(before, m, last, world.applicable(last)) else before
  }

  /** Monitors that no longer exist are forgotten. */
  function Swept(s: State, existing: set<MonitorId>): State {
    s.(known := map k | k in s.known && k.0 in existing :: s.known[k],
       noted := map m | m in s.noted && m in existing :: s.noted[m])
  }

  /** The versions compared, and remembered, before an exception. */
  function Done(sws: seq<Software>, trouble: Trouble): seq<Software> {
    if trouble.Nowhere? || |sws| < trouble.at then sws else sws[..trouble.at]
  }

  /** A version was reported on and not remembered. */
  predicate Forgot(sws: seq<Software>, world: World, m: Monitor) {
    world.trouble(m).Told? && world.trouble(m).at < |sws| && world.current(sws[world.trouble(m).at])
  }

  function ComparedOne(s: State, m: Monitor, sws: seq<Software>, world: World): State {
    var before := ComparedAll(s, m.id, Done(sws, world.trouble(m)), world);
    if Forgot(sws, world, m) then
      var sw := sws[world.trouble(m).at]; Reported(before, m.id, sw, world.applicable(sw))
    else before
  }

  function RecheckedOne(s: State, m: Monitor, world: World): State {
    if m.lastScan.None? || m.lastScan.value !in world.measured then s
    else
      var (scan, sws) := (m.lastScan.value, world.measured[m.lastScan.value]);
      if m.id in s.noted && s.noted[m.id] == scan then ComparedOne(s, m, sws, world)
      else if world.trouble(m).Nowhere? then Stocked(s, m.id, scan, sws, world)
      else s
  }

  function RecheckedAll(s: State, ms: seq<Monitor>, world: World): State {
    if ms == [] then s else RecheckedOne(RecheckedAll(s, ms[..|ms| - 1], world), ms[|ms| - 1], world)
  }

  function Rechecked(s: State, world: World): State {
    RecheckedAll(Swept(s, world.existing), world.active, world)
  }

  lemma RecheckedNext(s: State, ms: seq<Monitor>, i: nat, world: World)
    requires i < |ms|
    ensures RecheckedAll(s, ms[..i + 1], world) == RecheckedOne(RecheckedAll(s, ms[..i], world), ms[i], world)
  {
    assert ms[..i + 1][..i] == ms[..i];
  }

  lemma ComparedNext(s: State, m: MonitorId, sws: seq<Software>, j: nat, world: World)
    requires j < |sws|
    ensures var before := ComparedAll(s, m, sws[..j], world);
      ComparedAll(s, m, sws[..j + 1], world)
      == if world.current(sws[j]) then Compared(before, m, sws[j], world.applicable(sws[j])) else before
  {
    assert sws[..j + 1][..j] == sws[..j];
  }

  lemma RememberNext(known: map<KnownKey, bool>, m: MonitorId, sws: seq<Software>, i: nat, world: World)
    requires i < |sws|
    ensures RememberAll(known, m, sws[..i + 1], world)
         == RememberAll(known, m, sws[..i], world) + Entries(m, sws[i], world.applicable(sws[i]))
  {
    assert sws[..i + 1][..i] == sws[..i];
  }

  lemma NothingRemembered(known: map<KnownKey, bool>, m: MonitorId, world: World)
    ensures RememberAll(known, m, [], world) == known
  {
  }

  lemma NothingYet(s: State, m: MonitorId, world: World)
    ensures RecheckedAll(s, [], world) == s && ComparedAll(s, m, [], world) == s
  {
  }

  class Alerts {
    var known: map<KnownKey, bool>
    var noted: map<MonitorId, ScanId>
    var reports: seq<Report>

    function Model(): State
      reads this
    {
      State(known, noted, reports)
    }

    /** A monitor's scan was saved: what it found is known. */
    method TakeStock(m: MonitorId, scan: ScanId, sws: seq<Software>, world: World)
      modifies this
      ensures Model() == Stocked(old(Model()), m, scan, sws, world)
    {
      hide RememberAll, Remember;
      known := map k | k in known && k.0 != m :: known[k];
      ghost var others := known;
      NothingRemembered(others, m, world);
      for i := 0 to |sws|
        invariant known == RememberAll(others, m, sws[..i], world)
        invariant noted == old(noted) && reports == old(reports)
      {
        RememberNext(others, m, sws, i, world);
        var found := world.applicable(sws[i]);
        known := known + map id | id in found :: (m, sws[i], id) := found[id];
      }
      assert sws[..|sws|] == sws;
      noted := noted[m := scan];
    }

    /** One version against the data; broken off, nothing is remembered. */
    method Compare(m: MonitorId, sw: Software, found: Applicable, broken: bool)
      modifies this
      ensures Model() == if broken then Reported(old(Model()), m, sw, found) else Compared(old(Model()), m, sw, found)
    {
      var added := set id | id in found && (m, sw, id) !in known;
      var exploited := set id | id in found && found[id] && (m, sw, id) in known && !known[(m, sw, id)];
      if added != {} || exploited != {} { reports := reports + [Report(m, sw, added, exploited)]; }
      if broken { return; }
      known := known + map id | id in found :: (m, sw, id) := found[id];
    }

    /** The versions of one monitor, as far as nothing goes wrong. */
    method CompareOne(m: Monitor, sws: seq<Software>, world: World)
      modifies this
      ensures Model() == ComparedOne(old(Model()), m, sws, world)
    {
      hide ComparedAll, Compared, Reported;
      ghost var before := Model();
      NothingYet(before, m.id, world);
      var trouble := world.trouble(m);
      for j := 0 to |sws|
        invariant trouble.Nowhere? || j <= trouble.at
        invariant Model() == ComparedAll(before, m.id, sws[..j], world)
      {
        if trouble == Ahead(j) { return; }
        ComparedNext(before, m.id, sws, j, world);
        if !world.current(sws[j]) {
          if trouble == Told(j) { return; }
          continue;
        }
        Compare(m.id, sws[j], world.applicable(sws[j]), trouble == Told(j));
        if trouble == Told(j) { return; }
      }
      assert sws[..|sws|] == sws;
    }

    /** After a sync: every active monitor's versions against the data. */
    method Recheck(world: World)
      modifies this
      ensures Model() == Rechecked(old(Model()), world)
    {
      hide RecheckedAll, ComparedOne, Stocked;
      known := map k | k in known && k.0 in world.existing :: known[k];
      noted := map m | m in noted && m in world.existing :: noted[m];
      ghost var swept := Model();
      NothingYet(swept, 0, world);
      for i := 0 to |world.active|
        invariant Model() == RecheckedAll(swept, world.active[..i], world)
      {
        RecheckedNext(swept, world.active, i, world);
        var m := world.active[i];
        if m.lastScan.None? || m.lastScan.value !in world.measured { continue; }
        var scan, sws := m.lastScan.value, world.measured[m.lastScan.value];
        if m.id !in noted || noted[m.id] != scan {
          if world.trouble(m).Nowhere? { TakeStock(m.id, scan, sws, world); }
          continue;
        }
        CompareOne(m, sws, world);
      }
      assert world.active[..|world.active|] == world.active;
    }
  }

  // ------------------------------------------------- counting what is reported

  function TimesFresh(reports: seq<Report>, m: MonitorId, sw: Software, id: CveId): nat {
    if reports == [] then 0
    else
      var (init, last) := (reports[..|reports| - 1], reports[|reports| - 1]);
      TimesFresh(init, m, sw, id) + if last.monitor == m && last.software == sw && id in last.added then 1 else 0
  }

  function TimesExploited(reports: seq<Report>, m: MonitorId, sw: Software, id: CveId): nat {
    if reports == [] then 0
    else
      var (init, last) := (reports[..|reports| - 1], reports[|reports| - 1]);
      TimesExploited(init, m, sw, id)
        + if last.monitor == m && last.software == sw && id in last.exploited then 1 else 0
  }

  /** 1 while the CVE is not known, or known but not as exploited. */
  function Unlisted(s: State, m: MonitorId, sw: Software, id: CveId): nat {
    if (m, sw, id) in s.known && s.known[(m, sw, id)] then 0 else 1
  }

  /** 1 when this comparison sees a listing withdrawn. */
  function Withdrawn(s: State, key: KnownKey, m: MonitorId, sw: Software, found: Applicable): nat {
    if key == (m, sw, key.2) && key in s.known && s.known[key] && key.2 in found && !found[key.2] then 1 else 0
  }

  /** 1 when the CVE is reported as new, or as now exploited. */
  function ToldFresh(s: State, key: KnownKey, m: MonitorId, sw: Software, found: Applicable): nat {
    if key == (m, sw, key.2) && key.2 in found && key !in s.known then 1 else 0
  }

  function ToldExploited(s: State, key: KnownKey, m: MonitorId, sw: Software, found: Applicable): nat {
    if key == (m, sw, key.2) && key.2 in found && found[key.2] && key in s.known && !s.known[key] then 1 else 0
  }

  /** 1 when the CVE becomes known as listed already. */
  function ListedAtOnce(s: State, key: KnownKey, m: MonitorId, sw: Software, found: Applicable): nat {
    if key == (m, sw, key.2) && key.2 in found && found[key.2] && key !in s.known then 1 else 0
  }

  lemma ReportedCounts(s: State, m: MonitorId, sw: Software, found: Applicable, key: KnownKey)
    ensures var t := Reported(s, m, sw, found);
      && t.known == s.known && t.noted == s.noted
      && TimesFresh(t.reports, key.0, key.1, key.2)
         == TimesFresh(s.reports, key.0, key.1, key.2) + ToldFresh(s, key, m, sw, found)
      && TimesExploited(t.reports, key.0, key.1, key.2)
         == TimesExploited(s.reports, key.0, key.1, key.2) + ToldExploited(s, key, m, sw, found)
  {
    var t := Reported(s, m, sw, found);
    if |t.reports| > |s.reports| { assert t.reports[..|t.reports| - 1] == s.reports; }
    if key == (m, sw, key.2) {
      assert key.2 in Fresh(s, m, sw, found) <==> ToldFresh(s, key, m, sw, found) == 1;
      assert key.2 in NowExploited(s, m, sw, found) <==> ToldExploited(s, key, m, sw, found) == 1;
    }
  }

  /** What one comparison does for one CVE of one version: it is reported as
      new exactly when it becomes known, and what is known stays known; it is
      reported as exploited exactly when it applies, is listed now, and was
      known as not listed. */
  lemma ComparedCounts(s: State, m: MonitorId, sw: Software, found: Applicable, key: KnownKey)
    ensures var t := Compared(s, m, sw, found);
      && (key in s.known ==> key in t.known)
      && TimesFresh(t.reports, key.0, key.1, key.2)
         == TimesFresh(s.reports, key.0, key.1, key.2) + (if key in t.known && key !in s.known then 1 else 0)
      && TimesExploited(t.reports, key.0, key.1, key.2)
         == TimesExploited(s.reports, key.0, key.1, key.2)
            + (if key.0 == m && key.1 == sw && key.2 in found && found[key.2] && key in s.known && !s.known[key]
               then 1 else 0)
  {
    ReportedCounts(s, m, sw, found, key);
    KnownAfter(s, m, sw, found, key);
    hide Reported;
  }

  /** What is known of one CVE after a comparison. */
  lemma KnownAfter(s: State, m: MonitorId, sw: Software, found: Applicable, key: KnownKey)
    ensures var t := Compared(s, m, sw, found);
      && t.noted == s.noted
      && if key.0 == m && key.1 == sw && key.2 in found then key in t.known && t.known[key] == found[key.2]
         else (key in t.known <==> key in s.known) && (key in s.known ==> t.known[key] == s.known[key])
  {
    if key == (m, sw, key.2) {
      assert key in Entries(m, sw, found) <==> key.2 in found;
    } else {
      assert key !in Entries(m, sw, found);
    }
  }

  /** Listings gained and withdrawn add up. */
  lemma ComparedBalance(s: State, m: MonitorId, sw: Software, found: Applicable, key: KnownKey)
    ensures var t := Compared(s, m, sw, found);
      TimesExploited(t.reports, key.0, key.1, key.2) + Unlisted(t, key.0, key.1, key.2)
        + ListedAtOnce(s, key, m, sw, found)
      == TimesExploited(s.reports, key.0, key.1, key.2) + Unlisted(s, key.0, key.1, key.2)
           + Withdrawn(s, key, m, sw, found)
  {
    ComparedCounts(s, m, sw, found, key);
    KnownAfter(s, m, sw, found, key);
    hide Compared;
  }

  /** After a comparison every CVE that applies is known, as listed now. */
  lemma ComparedMissesNothing(s: State, m: MonitorId, sw: Software, found: Applicable)
    ensures forall id | id in found :: (m, sw, id) in Compared(s, m, sw, found).known
                                    && Compared(s, m, sw, found).known[(m, sw, id)] == found[id]
  {
    forall id | id in found ensures (m, sw, id) in Entries(m, sw, found) {}
  }

  // --------------------------------------------------------------------- runs

  /** Listings seen withdrawn by the comparisons of one monitor's versions. */
  function WithdrawnAll(s: State, m: MonitorId, sws: seq<Software>, world: World, key: KnownKey): nat {
    if sws == [] then 0
    else
      var (init, last) := (sws[..|sws| - 1], sws[|sws| - 1]);
      WithdrawnAll(s, m, init, world, key)
      + if world.current(last) then Withdrawn(ComparedAll(s, m, init, world), key, m, last, world.applicable(last))
        else 0
  }

  /** What a run saw of one CVE of one version: its listing withdrawn, its
      becoming known as listed already, and reports that were not remembered,
      of it as new and as exploited. */
  datatype Tally = Tally(withdrawn: nat, atOnce: nat, added: nat, exploited: nat) {
    function Plus(more: Tally): Tally {
      Tally(withdrawn + more.withdrawn, atOnce + more.atOnce, added + more.added, exploited + more.exploited)
    }
  }

  const NOTHING := Tally(0, 0, 0, 0)

  /** From s to t nothing that was known is forgotten; every CVE that became
      known was reported as new once, and any once more for each report that
      was not remembered; and it was reported as exploited once for every time
      its listing was gained, but for one had from the start, and once more
      for each such report. */
  ghost predicate Faithful(s: State, t: State, key: KnownKey, seen: Tally) {
    && (key in s.known ==> key in t.known && seen.atOnce == 0)
    && TimesFresh(t.reports, key.0, key.1, key.2)
       == TimesFresh(s.reports, key.0, key.1, key.2) + (if key in t.known && key !in s.known then 1 else 0) + seen.added
    && TimesExploited(t.reports, key.0, key.1, key.2) + Unlisted(t, key.0, key.1, key.2) + seen.atOnce
       == TimesExploited(s.reports, key.0, key.1, key.2) + Unlisted(s, key.0, key.1, key.2)
            + seen.withdrawn + seen.exploited
  }

  /** Of the versions compared, those with which the CVE became known as listed. */
  function AtOnceAll(s: State, m: MonitorId, sws: seq<Software>, world: World, key: KnownKey): nat {
    if sws == [] then 0
    else
      var (init, last) := (sws[..|sws| - 1], sws[|sws| - 1]);
      AtOnceAll(s, m, init, world, key)
      + if world.current(last) then ListedAtOnce(ComparedAll(s, m, init, world), key, m, last, world.applicable(last))
        else 0
  }

  function TallyAll(s: State, m: MonitorId, sws: seq<Software>, world: World, key: KnownKey): Tally {
    Tally(WithdrawnAll(s, m, sws, world, key), AtOnceAll(s, m, sws, world, key), 0, 0)
  }

  lemma {:induction false} ComparedAllFaithful(s: State, m: MonitorId, sws: seq<Software>, world: World, key: KnownKey)
    ensures Faithful(s, ComparedAll(s, m, sws, world), key, TallyAll(s, m, sws, world, key))
    ensures ComparedAll(s, m, sws, world).noted == s.noted
    decreases |sws|
  {
    if sws != [] {
      var (init, last) := (sws[..|sws| - 1], sws[|sws| - 1]);
      ComparedAllFaithful(s, m, init, world, key);
      var before := ComparedAll(s, m, init, world);
      ComparedCounts(before, m, last, world.applicable(last), key);
      ComparedBalance(before, m, last, world.applicable(last), key);
      KnownAfter(before, m, last, world.applicable(last), key);
      hide Compared, TimesFresh, TimesExploited;
    }
  }

  lemma {:induction false} RememberAllApart(known: map<KnownKey, bool>, m: MonitorId, sws: seq<Software>, world: World,
                                            key: KnownKey)
    requires key.0 != m
    ensures key in RememberAll(known, m, sws, world) <==> key in known
    ensures key in known ==> RememberAll(known, m, sws, world)[key] == known[key]
    decreases |sws|
  {
    if sws != [] {
      var (init, last) := (sws[..|sws| - 1], sws[|sws| - 1]);
      RememberAllApart(known, m, init, world, key);
      assert key !in Entries(m, last, world.applicable(last));
    }
  }

  /** The monitor of the key is not taken stock of anew. */
  predicate KeepsStock(s: State, m: Monitor, world: World, key: KnownKey) {
    m.id == key.0 && m.lastScan.Some? && m.lastScan.value in world.measured ==>
      m.id in s.noted && s.noted[m.id] == m.lastScan.value
  }

  function TallyCompared(s: State, m: Monitor, sws: seq<Software>, world: World, key: KnownKey): Tally {
    var before := ComparedAll(s, m.id, Done(sws, world.trouble(m)), world);
    var seen := TallyAll(s, m.id, Done(sws, world.trouble(m)), world, key);
    if Forgot(sws, world, m) then
      var sw := sws[world.trouble(m).at];
      seen.(added := ToldFresh(before, key, m.id, sw, world.applicable(sw)),
            exploited := ToldExploited(before, key, m.id, sw, world.applicable(sw)))
    else seen
  }

  function TallyOne(s: State, m: Monitor, world: World, key: KnownKey): Tally {
    if m.lastScan.None? || m.lastScan.value !in world.measured then NOTHING
    else if m.id in s.noted && s.noted[m.id] == m.lastScan.value then
      TallyCompared(s, m, world.measured[m.lastScan.value], world, key)
    else NOTHING
  }

  lemma ComparedOneFaithful(s: State, m: Monitor, sws: seq<Software>, world: World, key: KnownKey)
    ensures Faithful(s, ComparedOne(s, m, sws, world), key, TallyCompared(s, m, sws, world, key))
    ensures ComparedOne(s, m, sws, world).noted == s.noted
  {
    hide Faithful, Reported, ComparedAll, WithdrawnAll, AtOnceAll, ToldFresh, ToldExploited, Done;
    var before := ComparedAll(s, m.id, Done(sws, world.trouble(m)), world);
    ComparedAllFaithful(s, m.id, Done(sws, world.trouble(m)), world, key);
    if Forgot(sws, world, m) {
      var sw := sws[world.trouble(m).at];
      ReportedFaithful(s, before, m.id, sw, world.applicable(sw), key,
                       TallyAll(s, m.id, Done(sws, world.trouble(m)), world, key));
    }
  }

  lemma ReportedFaithful(s: State, before: State, m: MonitorId, sw: Software, found: Applicable, key: KnownKey,
                         seen: Tally)
    requires Faithful(s, before, key, seen) && seen.added == 0 && seen.exploited == 0
    ensures Reported(before, m, sw, found).noted == before.noted
    ensures Faithful(s, Reported(before, m, sw, found), key,
                     seen.(added := ToldFresh(before, key, m, sw, found),
                           exploited := ToldExploited(before, key, m, sw, found)))
  {
    ReportedCounts(before, m, sw, found, key);
    hide Reported, ToldFresh, ToldExploited, TimesFresh, TimesExploited;
  }

  lemma RecheckedOneFaithful(s: State, m: Monitor, world: World, key: KnownKey)
    requires KeepsStock(s, m, world, key)
    ensures var t := RecheckedOne(s, m, world);
      && Faithful(s, t, key, TallyOne(s, m, world, key))
      && (key.0 in t.noted <==> key.0 in s.noted) && (key.0 in s.noted ==> t.noted[key.0] == s.noted[key.0])
  {
    if m.lastScan.Some? && m.lastScan.value in world.measured {
      var (scan, sws) := (m.lastScan.value, world.measured[m.lastScan.value]);
      if m.id in s.noted && s.noted[m.id] == scan {
        ComparedOneFaithful(s, m, sws, world, key);
      } else {
        RememberAllApart(OfOthers(s.known, m.id), m.id, sws, world, key);
      }
    }
  }

  ghost predicate AllKeepStock(s: State, ms: seq<Monitor>, world: World, key: KnownKey) {
    forall m | m in ms :: KeepsStock(s, m, world, key)
  }

  function TallyMany(s: State, ms: seq<Monitor>, world: World, key: KnownKey): Tally {
    if ms == [] then NOTHING
    else
      TallyMany(s, ms[..|ms| - 1], world, key).Plus(
        TallyOne(RecheckedAll(s, ms[..|ms| - 1], world), ms[|ms| - 1], world, key))
  }

  lemma {:induction false} RecheckedAllFaithful(s: State, ms: seq<Monitor>, world: World, key: KnownKey)
    requires AllKeepStock(s, ms, world, key)
    ensures var t := RecheckedAll(s, ms, world);
      && Faithful(s, t, key, TallyMany(s, ms, world, key))
      && (key.0 in t.noted <==> key.0 in s.noted) && (key.0 in s.noted ==> t.noted[key.0] == s.noted[key.0])
    decreases |ms|
  {
    if ms != [] {
      var (init, last) := (ms[..|ms| - 1], ms[|ms| - 1]);
      assert ms == init + [last];
      RecheckedAllFaithful(s, init, world, key);
      assert KeepsStock(s, last, world, key);
      RecheckedOneFaithful(RecheckedAll(s, init, world), last, world, key);
    }
  }

  ghost function AfterAll(s: State, worlds: seq<World>): State {
    if worlds == [] then s else Rechecked(AfterAll(s, worlds[..|worlds| - 1]), worlds[|worlds| - 1])
  }

  /** Over all rechecks, what was seen of one CVE of one version. */
  ghost function TallyOver(s: State, worlds: seq<World>, key: KnownKey): Tally {
    if worlds == [] then NOTHING
    else
      var (init, last) := (worlds[..|worlds| - 1], worlds[|worlds| - 1]);
      TallyOver(s, init, key).Plus(TallyMany(Swept(AfterAll(s, init), last.existing), last.active, last, key))
  }

  /** The times the work on a monitor broke off between report and memory. */
  function Breaks(ms: seq<Monitor>, world: World, id: MonitorId): nat {
    if ms == [] then 0
    else
      var last := ms[|ms| - 1];
      Breaks(ms[..|ms| - 1], world, id) + if last.id == id && world.trouble(last).Told? then 1 else 0
  }

  ghost function BreaksOver(worlds: seq<World>, id: MonitorId): nat {
    if worlds == [] then 0
    else
      var last := worlds[|worlds| - 1];
      BreaksOver(worlds[..|worlds| - 1], id) + Breaks(last.active, last, id)
  }

  lemma {:induction false} TallyManyBound(s: State, ms: seq<Monitor>, world: World, key: KnownKey)
    ensures var seen := TallyMany(s, ms, world, key); seen.added + seen.exploited <= Breaks(ms, world, key.0)
    decreases |ms|
  {
    if ms != [] {
      hide RecheckedAll, ComparedAll, WithdrawnAll;
      TallyManyBound(s, ms[..|ms| - 1], world, key);
    }
  }

  lemma {:induction false} TallyOverBound(s: State, worlds: seq<World>, key: KnownKey)
    ensures TallyOver(s, worlds, key).added + TallyOver(s, worlds, key).exploited <= BreaksOver(worlds, key.0)
    decreases |worlds|
  {
    if worlds != [] {
      var (init, last) := (worlds[..|worlds| - 1], worlds[|worlds| - 1]);
      TallyOverBound(s, init, key);
      TallyManyBound(Swept(AfterAll(s, init), last.existing), last.active, last, key);
    }
  }

  /** Through all rechecks the monitor exists and is not taken stock of. */
  ghost predicate SameStock(s: State, worlds: seq<World>, key: KnownKey) {
    forall i | 0 <= i < |worlds| ::
      && key.0 in worlds[i].existing
      && AllKeepStock(Swept(AfterAll(s, worlds[..i]), worlds[i].existing), worlds[i].active, worlds[i], key)
  }

  /** Between two stock-takings of a monitor, whatever the data does, whatever
      other monitors do and wherever exceptions strike: a CVE of one of its
      versions is reported as new at most once, exactly when it became known
      after the stock was taken, and once more for each report on it as new
      that was not remembered. It is reported as exploited exactly as often as
      its listing was gained since it is known, and once more for each such
      report. All these are no more than the breaks between report and memory. */
  lemma {:induction false} ReportedOnce(s: State, worlds: seq<World>, key: KnownKey)
    requires SameStock(s, worlds, key)
    ensures Faithful(s, AfterAll(s, worlds), key, TallyOver(s, worlds, key))
    ensures TimesFresh(AfterAll(s, worlds).reports, key.0, key.1, key.2) <=
      TimesFresh(s.reports, key.0, key.1, key.2) + 1 + TallyOver(s, worlds, key).added
    ensures TimesExploited(AfterAll(s, worlds).reports, key.0, key.1, key.2)
              + Unlisted(AfterAll(s, worlds), key.0, key.1, key.2) + TallyOver(s, worlds, key).atOnce
         == TimesExploited(s.reports, key.0, key.1, key.2) + Unlisted(s, key.0, key.1, key.2)
              + TallyOver(s, worlds, key).withdrawn + TallyOver(s, worlds, key).exploited
    ensures TallyOver(s, worlds, key).added + TallyOver(s, worlds, key).exploited <= BreaksOver(worlds, key.0)
    decreases |worlds|
  {
    if worlds != [] {
      var (init, last) := (worlds[..|worlds| - 1], worlds[|worlds| - 1]);
      assert forall i | 0 <= i < |init| :: init[..i] == worlds[..i];
      assert worlds[..|worlds| - 1] == init;
      assert AllKeepStock(Swept(AfterAll(s, worlds[..|worlds| - 1]), last.existing), last.active, last, key);
      ReportedOnce(s, init, key);
      RecheckedFaithful(AfterAll(s, init), last, key);
      FaithfulOn(s, AfterAll(s, init), AfterAll(s, worlds), key, TallyOver(s, init, key),
                 TallyMany(Swept(AfterAll(s, init), last.existing), last.active, last, key));
    }
    TallyOverBound(s, worlds, key);
    hide AfterAll, SameStock, AllKeepStock, TallyOver, BreaksOver;
    FaithfulBounds(s, AfterAll(s, worlds), key, TallyOver(s, worlds, key));
  }

  lemma RecheckedFaithful(s: State, world: World, key: KnownKey)
    requires key.0 in world.existing && AllKeepStock(Swept(s, world.existing), world.active, world, key)
    ensures Faithful(s, Rechecked(s, world), key, TallyMany(Swept(s, world.existing), world.active, world, key))
  {
    RecheckedAllFaithful(Swept(s, world.existing), world.active, world, key);
    hide RecheckedAll, TallyMany, AllKeepStock;
  }

  lemma FaithfulOn(s: State, mid: State, t: State, key: KnownKey, before: Tally, after: Tally)
    requires Faithful(s, mid, key, before) && Faithful(mid, t, key, after)
    ensures Faithful(s, t, key, before.Plus(after))
  {
  }

  lemma FaithfulBounds(s: State, t: State, key: KnownKey, seen: Tally)
    requires Faithful(s, t, key, seen)
    ensures TimesFresh(t.reports, key.0, key.1, key.2) <= TimesFresh(s.reports, key.0, key.1, key.2) + 1 + seen.added
    ensures TimesExploited(t.reports, key.0, key.1, key.2) + Unlisted(t, key.0, key.1, key.2) + seen.atOnce
         == TimesExploited(s.reports, key.0, key.1, key.2) + Unlisted(s, key.0, key.1, key.2)
              + seen.withdrawn + seen.exploited
  {
  }

  /** One monitor with one version, to which one CVE applies. */
  ghost predicate Single(world: World, sw: Software, id: CveId, trouble: Trouble) {
    && world.existing == {1} && world.active == [Monitor(1, Some(1))] && world.measured == map[1 := [sw]]
    && world.current(sw) && world.applicable(sw) == map[id := false] && world.trouble(Monitor(1, Some(1))) == trouble
  }

  /** A version whose data is not current is passed over: nothing becomes
      known of it, and nothing is reported. */
  lemma {:induction false} StalePassedOver(s: State, m: MonitorId, sws: seq<Software>, world: World, key: KnownKey)
    requires !world.current(key.1)
    ensures var t := ComparedAll(s, m, sws, world);
      && (key in t.known <==> key in s.known) && (key in s.known ==> t.known[key] == s.known[key])
      && TimesFresh(t.reports, key.0, key.1, key.2) == TimesFresh(s.reports, key.0, key.1, key.2)
      && TimesExploited(t.reports, key.0, key.1, key.2) == TimesExploited(s.reports, key.0, key.1, key.2)
    decreases |sws|
  {
    if sws != [] {
      var (init, last) := (sws[..|sws| - 1], sws[|sws| - 1]);
      StalePassedOver(s, m, init, world, key);
      ComparedCounts(ComparedAll(s, m, init, world), m, last, world.applicable(last), key);
      KnownAfter(ComparedAll(s, m, init, world), m, last, world.applicable(last), key);
      hide Compared, TimesFresh, TimesExploited;
    }
  }

  // ------------------------------------------- a listing gained is reported

  /** Once the CVE is known as listed, comparisons with a world that lists it
      leave it so. */
  lemma {:induction false} ComparedAllLists(s: State, m: MonitorId, sws: seq<Software>, world: World, key: KnownKey)
    requires key.2 in world.applicable(key.1) && world.applicable(key.1)[key.2]
    ensures key in s.known && s.known[key] ==>
      key in ComparedAll(s, m, sws, world).known && ComparedAll(s, m, sws, world).known[key]
    ensures key.0 == m && key.1 in sws && world.current(key.1) ==>
      key in ComparedAll(s, m, sws, world).known && ComparedAll(s, m, sws, world).known[key]
    decreases |sws|
  {
    if sws != [] {
      var (init, last) := (sws[..|sws| - 1], sws[|sws| - 1]);
      assert sws == init + [last];
      ComparedAllLists(s, m, init, world, key);
      KnownAfter(ComparedAll(s, m, init, world), m, last, world.applicable(last), key);
      hide Compared;
    }
  }

  lemma RecheckedOneLists(s: State, m: Monitor, world: World, key: KnownKey)
    requires KeepsStock(s, m, world, key) && world.trouble(m).Nowhere?
    requires key.2 in world.applicable(key.1) && world.applicable(key.1)[key.2]
    ensures key in s.known && s.known[key] ==>
      key in RecheckedOne(s, m, world).known && RecheckedOne(s, m, world).known[key]
    ensures m.id == key.0 && m.lastScan.Some? && m.lastScan.value in world.measured
            && key.1 in world.measured[m.lastScan.value] && world.current(key.1) ==>
      key in RecheckedOne(s, m, world).known && RecheckedOne(s, m, world).known[key]
  {
    if m.lastScan.Some? && m.lastScan.value in world.measured {
      var (scan, sws) := (m.lastScan.value, world.measured[m.lastScan.value]);
      if m.id in s.noted && s.noted[m.id] == scan {
        ComparedAllLists(s, m.id, sws, world, key);
      } else {
        RememberAllApart(OfOthers(s.known, m.id), m.id, sws, world, key);
      }
    }
  }

  lemma {:induction false} RecheckedAllLists(s: State, ms: seq<Monitor>, world: World, key: KnownKey, m: Monitor)
    requires AllKeepStock(s, ms, world, key) && forall n | n in ms :: world.trouble(n).Nowhere?
    requires key.2 in world.applicable(key.1) && world.applicable(key.1)[key.2] && world.current(key.1)
    requires m in ms && m.id == key.0 && m.lastScan.Some? && m.lastScan.value in world.measured
    requires key.1 in world.measured[m.lastScan.value]
    ensures key in RecheckedAll(s, ms, world).known && RecheckedAll(s, ms, world).known[key]
    decreases |ms|
  {
    var (init, last) := (ms[..|ms| - 1], ms[|ms| - 1]);
    assert ms == init + [last];
    RecheckedAllFaithful(s, init, world, key);
    assert KeepsStock(s, last, world, key);
    if m in init { RecheckedAllLists(s, init, world, key, m); }
    RecheckedOneLists(RecheckedAll(s, init, world), last, world, key);
  }

  lemma {:induction false} NothingToldTwice(s: State, ms: seq<Monitor>, world: World, key: KnownKey)
    requires forall m | m in ms :: world.trouble(m).Nowhere?
    ensures TallyMany(s, ms, world, key).exploited == 0
    decreases |ms|
  {
    if ms != [] {
      assert ms[|ms| - 1] in ms;
      NothingToldTwice(s, ms[..|ms| - 1], world, key);
      hide RecheckedAll, ComparedAll;
    }
  }

  /** In a report of the recheck, which are those past the first `from`. */
  ghost predicate ToldSince(reports: seq<Report>, from: nat, key: KnownKey) {
    exists i :: from <= i < |reports| && reports[i].monitor == key.0 && reports[i].software == key.1
             && key.2 in reports[i].exploited
  }

  lemma {:induction false} MoreTold(before: seq<Report>, after: seq<Report>, key: KnownKey)
    requires before <= after && TimesExploited(after, key.0, key.1, key.2) > TimesExploited(before, key.0, key.1, key.2)
    ensures ToldSince(after, |before|, key)
    decreases |after|
  {
    assert |before| == |after| ==> before == after;
    if |after| > |before| {
      var (init, last) := (after[..|after| - 1], after[|after| - 1]);
      if !(last.monitor == key.0 && last.software == key.1 && key.2 in last.exploited) {
        MoreTold(before, init, key);
        var i :| |before| <= i < |init| && init[i].monitor == key.0 && init[i].software == key.1
              && key.2 in init[i].exploited;
        assert after[i] == init[i];
      }
    }
  }

  lemma ReportedOn(s: State, m: MonitorId, sw: Software, found: Applicable)
    ensures s.reports <= Compared(s, m, sw, found).reports && s.reports <= Reported(s, m, sw, found).reports
  {
  }

  lemma {:induction false} ComparedAllOn(s: State, m: MonitorId, sws: seq<Software>, world: World)
    ensures s.reports <= ComparedAll(s, m, sws, world).reports
    decreases |sws|
  {
    hide Compared;
    if sws != [] {
      var (init, last) := (sws[..|sws| - 1], sws[|sws| - 1]);
      ComparedAllOn(s, m, init, world);
      ReportedOn(ComparedAll(s, m, init, world), m, last, world.applicable(last));
    }
  }

  lemma {:induction false} RecheckedAllOn(s: State, ms: seq<Monitor>, world: World)
    ensures s.reports <= RecheckedAll(s, ms, world).reports
    decreases |ms|
  {
    hide ComparedAll, Reported, Done;
    if ms != [] {
      var (before, m) := (RecheckedAll(s, ms[..|ms| - 1], world), ms[|ms| - 1]);
      RecheckedAllOn(s, ms[..|ms| - 1], world);
      if m.lastScan.Some? && m.lastScan.value in world.measured {
        var sws := world.measured[m.lastScan.value];
        ComparedAllOn(before, m.id, Done(sws, world.trouble(m)), world);
        if Forgot(sws, world, m) {
          ReportedOn(ComparedAll(before, m.id, Done(sws, world.trouble(m)), world), m.id,
                     sws[world.trouble(m).at], world.applicable(sws[world.trouble(m).at]));
        }
      }
    }
  }

  /** A recheck that nothing breaks off, without stock-taking: a CVE that was
      known as not listed, applies to a version compared, and is listed now, is
      in one of its reports as exploited, and known as listed afterwards. */
  lemma NowListedIsReported(s: State, world: World, m: Monitor, key: KnownKey)
    requires key in s.known && !s.known[key] && key.0 in world.existing
    requires AllKeepStock(Swept(s, world.existing), world.active, world, key)
    requires (forall n | n in world.active :: world.trouble(n).Nowhere?) && m in world.active && m.id == key.0
    requires m.lastScan.Some? && m.lastScan.value in world.measured && key.1 in world.measured[m.lastScan.value]
    requires world.current(key.1) && key.2 in world.applicable(key.1) && world.applicable(key.1)[key.2]
    ensures key in Rechecked(s, world).known && Rechecked(s, world).known[key]
    ensures s.reports <= Rechecked(s, world).reports && ToldSince(Rechecked(s, world).reports, |s.reports|, key)
  {
    var swept := Swept(s, world.existing);
    RecheckedAllLists(swept, world.active, world, key, m);
    RecheckedAllFaithful(swept, world.active, world, key);
    NothingToldTwice(swept, world.active, world, key);
    RecheckedAllOn(swept, world.active, world);
    hide RecheckedAll, TallyMany;
    MoreTold(s.reports, Rechecked(s, world).reports, key);
  }

  /** One exception between report and memory, and the CVE is reported again. */
  lemma ToldTwice(sw: Software, id: CveId, first: World, second: World)
    requires Single(first, sw, id, Told(0)) && Single(second, sw, id, Nowhere)
    ensures var s := State(map[], map[1 := 1], []);
      SameStock(s, [first, second], (1, sw, id)) && TimesFresh(AfterAll(s, [first, second]).reports, 1, sw, id) == 2
  {
    var (s, told) := (State(map[], map[1 := 1], []), Report(1, sw, {id}, {}));
    var once := s.(reports := [told]);
    OneRecheck(s, sw, id, first, Told(0));
    assert Rechecked(s, first) == once;
    OneRecheck(once, sw, id, second, Nowhere);
    AfterTwo(s, first, second);
    hide Rechecked, AllKeepStock, Swept, AfterAll;
    assert [first, second][..0] == [] && [first, second][..1] == [first];
    assert [told, told][..1] == [told] && [told][..0] == [];
    assert TimesFresh([told], 1, sw, id) == 1;
    assert [told] + [told] == [told, told];
  }

  lemma AfterTwo(s: State, first: World, second: World)
    ensures AfterAll(s, []) == s && AfterAll(s, [first]) == Rechecked(s, first)
    ensures AfterAll(s, [first, second]) == Rechecked(Rechecked(s, first), second)
  {
    hide Rechecked;
    assert [first, second][..1] == [first] && [first][..0] == [];
  }

  lemma OneRecheck(s: State, sw: Software, id: CveId, world: World, trouble: Trouble)
    requires s.known == map[] && s.noted == map[1 := 1]
    requires Single(world, sw, id, trouble) && (trouble == Told(0) || trouble == Nowhere)
    ensures Swept(s, world.existing) == s && AllKeepStock(s, world.active, world, (1, sw, id))
    ensures Rechecked(s, world).reports == s.reports + [Report(1, sw, {id}, {})] && Rechecked(s, world).noted == s.noted
    ensures trouble == Told(0) ==> Rechecked(s, world).known == map[]
  {
    var m := Monitor(1, Some(1));
    assert world.active[..0] == [] && RecheckedAll(s, [], world) == s;
    assert RecheckedAll(s, world.active, world) == RecheckedOne(s, m, world);
    assert [sw][..0] == [];
    assert ComparedAll(s, 1, [], world) == s;
    assert id in map[id := false];
    assert Fresh(s, 1, sw, map[id := false]) == {id} && NowExploited(s, 1, sw, map[id := false]) == {};
  }

  /** What taking stock makes known of a monitor: exactly what applies now to
      the versions its scan measured. Nothing is reported. */
  lemma {:induction false} RememberAllExact(known: map<KnownKey, bool>, m: MonitorId, sws: seq<Software>, world: World,
                                            key: KnownKey)
    requires key.0 == m && key !in known
    ensures key in RememberAll(known, m, sws, world) <==> key.1 in sws && key.2 in world.applicable(key.1)
    ensures key in RememberAll(known, m, sws, world) ==>
      RememberAll(known, m, sws, world)[key] == world.applicable(key.1)[key.2]
    decreases |sws|
  {
    if sws != [] {
      var (init, last) := (sws[..|sws| - 1], sws[|sws| - 1]);
      assert sws == init + [last];
      RememberAllExact(known, m, init, world, key);
      assert key in Entries(m, last, world.applicable(last)) <==> key.1 == last && key.2 in world.applicable(last);
    }
  }

  /** Taking stock: of the monitor exactly what applies now to the versions of
      the scan is known, as listed now, and nothing is reported; of others what
      was known; and the same scan is compared from then on. */
  lemma StockIs(s: State, m: Monitor, scan: ScanId, sws: seq<Software>, world: World, key: KnownKey)
    ensures var t := Stocked(s, m.id, scan, sws, world);
      && t.reports == s.reports
      && (key.0 == m.id ==>
            && (key in t.known <==> key.1 in sws && key.2 in world.applicable(key.1))
            && (key in t.known ==> t.known[key] == world.applicable(key.1)[key.2]))
      && (key.0 != m.id ==>
            (key in t.known <==> key in s.known) && (key in s.known ==> t.known[key] == s.known[key]))
      && (m.lastScan == Some(scan) ==> forall later: World :: KeepsStock(t, m, later, key))
  {
    if key.0 == m.id {
      RememberAllExact(OfOthers(s.known, m.id), m.id, sws, world, key);
    } else {
      RememberAllApart(OfOthers(s.known, m.id), m.id, sws, world, key);
    }
  }

  /** A recheck forgets exactly the monitors that no longer exist. */
  lemma SweptIs(s: State, existing: set<MonitorId>, key: KnownKey)
    ensures var t := Swept(s, existing);
      && t.reports == s.reports
      && (key in t.known <==> key in s.known && key.0 in existing) && (key in t.known ==> t.known[key] == s.known[key])
      && (key.0 in t.noted <==> key.0 in s.noted && key.0 in existing)
      && (key.0 in t.noted ==> t.noted[key.0] == s.noted[key.0])
  {
  }

  lemma {:induction false} ComparedAllCatches(s: State, m: MonitorId, sws: seq<Software>, world: World, key: KnownKey)
    requires key.0 == m && key.1 in sws && world.current(key.1) && key.2 in world.applicable(key.1)
    ensures key in ComparedAll(s, m, sws, world).known
    decreases |sws|
  {
    var (init, last) := (sws[..|sws| - 1], sws[|sws| - 1]);
    assert sws == init + [last];
    ComparedMissesNothing(ComparedAll(s, m, init, world), m, last, world.applicable(last));
    if key.1 in init { ComparedAllCatches(s, m, init, world, key); }
  }

  lemma {:induction false} RecheckedAllCatches(s: State, ms: seq<Monitor>, world: World, m: Monitor, key: KnownKey)
    requires AllKeepStock(s, ms, world, key) && m in ms && m.id == key.0
    requires m.lastScan.Some? && m.lastScan.value in world.measured && key.1 in world.measured[m.lastScan.value]
    requires world.current(key.1) && key.2 in world.applicable(key.1) && world.trouble(m).Nowhere?
    ensures key in RecheckedAll(s, ms, world).known
    decreases |ms|
  {
    var (init, last) := (ms[..|ms| - 1], ms[|ms| - 1]);
    assert ms == init + [last];
    RecheckedAllFaithful(s, init, world, key);
    var before := RecheckedAll(s, init, world);
    assert KeepsStock(s, last, world, key);
    RecheckedOneFaithful(before, last, world, key);
    if m in init {
      RecheckedAllCatches(s, init, world, m, key);
    } else {
      ComparedAllCatches(before, m.id, world.measured[m.lastScan.value], world, key);
    }
  }

  /** From one stock-taking on, through any rechecks without another: a CVE of
      a version is known exactly when it applied at the stock-taking or has
      been reported as new since, those reports not counted that were not
      remembered. */
  lemma KnownMeansStockedOrReported(s: State, m: MonitorId, scan: ScanId, sws: seq<Software>, stock: World,
                                    worlds: seq<World>, key: KnownKey)
    requires key.0 == m && SameStock(Stocked(s, m, scan, sws, stock), worlds, key)
    ensures var (from, t) := (Stocked(s, m, scan, sws, stock), AfterAll(Stocked(s, m, scan, sws, stock), worlds));
      && from.reports == s.reports
      && (key in t.known <==>
          || (key.1 in sws && key.2 in stock.applicable(key.1))
          || TimesFresh(t.reports, key.0, key.1, key.2)
             > TimesFresh(s.reports, key.0, key.1, key.2) + TallyOver(from, worlds, key).added)
  {
    ReportedOnce(Stocked(s, m, scan, sws, stock), worlds, key);
    RememberAllExact(OfOthers(s.known, m), m, sws, stock, key);
  }

  /** After a recheck that compares the version, and whose work on the monitor
      nothing breaks off, whatever applies now is known. */
  lemma NothingLeftOut(s: State, worlds: seq<World>, last: World, monitor: Monitor, key: KnownKey)
    requires SameStock(s, worlds + [last], key)
    requires monitor in last.active && monitor.id == key.0
    requires monitor.lastScan.Some? && monitor.lastScan.value in last.measured
    requires key.1 in last.measured[monitor.lastScan.value]
    requires last.current(key.1) && key.2 in last.applicable(key.1) && last.trouble(monitor).Nowhere?
    ensures key in AfterAll(s, worlds + [last]).known
    ensures key !in s.known ==>
      TimesFresh(AfterAll(s, worlds + [last]).reports, key.0, key.1, key.2) ==
        TimesFresh(s.reports, key.0, key.1, key.2) + 1 + TallyOver(s, worlds + [last], key).added
  {
    var all := worlds + [last];
    assert all[..|all| - 1] == worlds && all[|all| - 1] == last;
    assert AllKeepStock(Swept(AfterAll(s, all[..|all| - 1]), last.existing), last.active, last, key);
    RecheckedAllCatches(Swept(AfterAll(s, worlds), last.existing), last.active, last, monitor, key);
    ReportedOnce(s, all, key);
  }
}
