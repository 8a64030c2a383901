/** The scheduled lookups of the portfolio (domain_portfolio.py): which
    domains are due, and why every one of them gets its turn.

    Moments are in seconds, dates in days. */
module Scheduler {
  import opened Common

  datatype Phase = Registered | Quarantine | PendingDelete | Redemption | NotInDns | NotRegistered | Unmeasured

  type Id = nat

  datatype Domain = Domain(lastChecked: Option<int>, claim: bool, phase: Phase, lastError: bool,
                           expires: Option<int>, releasedFrom: Option<int>)

  const PER_RUN: nat := 30
  const MINUTE: int := 60
  const HOUR: int := 3600
  const DAY: int := 86400

  predicate ReleaseWindow(d: Domain, now: int) {
    d.releasedFrom.Some? && d.releasedFrom.value - 5 * MINUTE <= now <= d.releasedFrom.value + 75 * MINUTE
  }

  /** How long after its last lookup a domain is looked up again. */
  function Interval(d: Domain, now: int): int {
    if d.claim && ReleaseWindow(d, now) then 55
    else if d.lastError || d.phase in {Quarantine, PendingDelete, Redemption, Unmeasured} then HOUR
    else if d.claim || (d.expires.Some? && d.expires.value - now / DAY <= 30) then 6 * HOUR
    else 24 * HOUR
  }

  predicate IsDue(d: Domain, now: int) {
    d.lastChecked.None? || now - d.lastChecked.value >= Interval(d, now)
  }

  /** After a day every domain is due, and none before 55 seconds. */
  lemma DueAtLatest(d: Domain, now: int)
    ensures d.lastChecked.None? || now - d.lastChecked.value >= 86400 ==> IsDue(d, now)
    ensures IsDue(d, now) ==> d.lastChecked.None? || now - d.lastChecked.value >= 55
  {
  }

  /** Inside the window from five minutes before a release until 75 after it a
      domain to be claimed is due every 55 seconds. Outside: hourly after an
      error or in a phase that passes; every six hours to be claimed or within
      thirty days of its end; else daily. */
  lemma DueEvery(d: Domain, now: int)
    requires d.lastChecked.Some?
    ensures var passed := now - d.lastChecked.value;
      var open := d.releasedFrom.Some? && d.releasedFrom.value - 300 <= now <= d.releasedFrom.value + 4500;
      var unsettled := d.lastError || d.phase in {Quarantine, PendingDelete, Redemption, Unmeasured};
      var soon := d.expires.Some? && d.expires.value <= now / 86400 + 30;
      && (d.claim && open ==> (IsDue(d, now) <==> passed >= 55))
      && (!(d.claim && open) && unsettled ==> (IsDue(d, now) <==> passed >= 3600))
      && (!open && !unsettled && d.claim ==> (IsDue(d, now) <==> passed >= 21600))
      && (!unsettled && !d.claim && soon ==> (IsDue(d, now) <==> passed >= 21600))
      && (!unsettled && !d.claim && !soon ==> (IsDue(d, now) <==> passed >= 86400))
  {
  }

  /** The window of a domain to be claimed was open and no longer is. */
  predicate WindowClosed(d: Domain, now: int, later: int) {
    d.claim && ReleaseWindow(d, now) && !ReleaseWindow(d, later)
  }

  /** A domain that is due stays due for as long as it is not looked up,
      unless its release window closes meanwhile. */
  lemma DueUntilChecked(d: Domain, now: int, later: int)
    requires IsDue(d, now) && now <= later && !WindowClosed(d, now, later)
    ensures IsDue(d, later)
  {
    assert now / DAY <= later / DAY;
  }

  /** When it does close, the domain is still due exactly if its ordinary
      interval has passed as well. */
  lemma DueAfterWindow(d: Domain, now: int, later: int)
    requires IsDue(d, now) && now <= later && WindowClosed(d, now, later)
    ensures IsDue(d, later) <==>
      d.lastChecked.None?
      || later - d.lastChecked.value >= if d.lastError || d.phase in {Quarantine, PendingDelete, Redemption, Unmeasured}
                                        then HOUR else 6 * HOUR
  {
  }

  /** Such a domain exists: due inside its window, not due once it has closed. */
  lemma WindowCanEndDue()
    ensures var d := Domain(Some(4400), true, Registered, false, None, Some(0));
      WindowClosed(d, 4460, 4501) && IsDue(d, 4460) && !IsDue(d, 4501)
  {
  }

  // -------------------------------------------------------------------- a run

  type Table = map<Id, Domain>

  /** Never looked up comes first, then the oldest lookup. */
  predicate NotAfter(a: Domain, b: Domain) {
    a.lastChecked.None? || (b.lastChecked.Some? && a.lastChecked.value <= b.lastChecked.value)
  }

  predicate Distinct(xs: seq<Id>) {
    xs == [] || (xs[0] !in xs[1..] && Distinct(xs[1..]))
  }

  lemma {:induction false} DistinctAt(xs: seq<Id>, i: nat)
    requires Distinct(xs) && i < |xs|
    ensures xs[i] !in xs[..i]
    decreases |xs|
  {
    if i > 0 {
      DistinctAt(xs[1..], i - 1);
      assert xs[..i] == [xs[0]] + xs[1..][..i - 1];
      assert xs[i] in xs[1..];
    }
  }

  /** The rows as the database hands them out: each once, oldest first, ties
      in any order. */
  ghost predicate InOrder(table: Table, order: seq<Id>) {
    && (forall x :: x in order <==> x in table)
    && Distinct(order)
    && forall i, j | 0 <= i < j < |order| && order[i] in table && order[j] in table ::
      NotAfter(table[order[i]], table[order[j]])
  }

  /** The first `most` of the listed domains that are due. */
  function FirstDue(table: Table, order: seq<Id>, now: int, most: nat): seq<Id>
    requires forall x | x in order :: x in table
  {
    if order == [] || most == 0 then []
    else if IsDue(table[order[0]], now) then [order[0]] + FirstDue(table, order[1..], now, most - 1)
    else FirstDue(table, order[1..], now, most)
  }

  /** What a lookup comes to: an exception, no answer, or an answer. */
  datatype Lookup = Raises | Fails | Answers(phase: Phase, expires: Option<int>, releasedFrom: Option<int>)

  function Checked(d: Domain, l: Lookup, now: int): Domain {
    match l
    case Raises => d
    case Fails => d.(lastChecked := Some(now), lastError := true)
    case Answers(phase, expires, releasedFrom) => Domain(Some(now), d.claim, phase, false, expires, releasedFrom)
  }

  /** After a lookup: an exception leaves the row; a lookup without an answer
      is stamped and noted as an error, and the last answer stays; an answer is
      stored and the error is gone. What the domain is held for stays. */
  predicate LookedUp(was: Domain, l: Lookup, now: int, row: Domain) {
    && (l.Raises? ==> row == was)
    && (!l.Raises? ==> row.lastChecked == Some(now) && row.claim == was.claim && row.lastError == l.Fails?)
    && (l.Fails? ==> row.phase == was.phase && row.expires == was.expires && row.releasedFrom == was.releasedFrom)
    && (l.Answers? ==> row.phase == l.phase && row.expires == l.expires && row.releasedFrom == l.releasedFrom)
  }

  lemma BatchLookedUp(table: Table, batch: seq<Id>, lookup: Id -> Lookup, now: int)
    ensures var after := AfterBatch(table, batch, lookup, now);
      && after.Keys == table.Keys
      && (forall x | x in table && x in batch :: LookedUp(table[x], lookup(x), now, after[x]))
      && (forall x | x in table && x !in batch :: after[x] == table[x])
  {
  }

  function AfterBatch(table: Table, batch: seq<Id>, lookup: Id -> Lookup, now: int): Table {
    map x | x in table :: if x in batch then Checked(table[x], lookup(x), now) else table[x]
  }

  class Portfolio {
    var domains: Table

    /** One run: the first thirty due rows are looked up and stamped. */
    method MaybeRun(order: seq<Id>, now: int, lookup: Id -> Lookup)
      requires InOrder(domains, order)
      modifies this
      ensures domains == AfterBatch(old(domains), FirstDue(old(domains), order, now, PER_RUN), lookup, now)
      ensures domains.Keys == old(domains).Keys && |FirstDue(old(domains), order, now, PER_RUN)| <= 30
      ensures forall x | x in old(domains) ::
        if x in FirstDue(old(domains), order, now, PER_RUN) then LookedUp(old(domains)[x], lookup(x), now, domains[x])
        else domains[x] == old(domains)[x]
    {
      hide IsDue, Checked, LookedUp;
      var rows := domains;
      var due := DueRows(rows, order, now);
      FirstDueMembers(rows, order, now, PER_RUN);
      FirstDueOnce(rows, order, now, PER_RUN);
      for i := 0 to |due|
        invariant domains == AfterBatch(rows, due[..i], lookup, now)
      {
        var x := due[i];
        assert x in due;
        DistinctAt(due, i);
        assert due[..i + 1] == due[..i] + [x];
        domains := domains[x := Checked(rows[x], lookup(x), now)];
      }
      assert due[..|due|] == due;
      BatchLookedUp(rows, due, lookup, now);
    }
  }

  method DueRows(rows: Table, order: seq<Id>, now: int) returns (due: seq<Id>)
    requires forall x | x in order :: x in rows
    ensures due == FirstDue(rows, order, now, PER_RUN)
  {
    hide IsDue;
    due := [];
    for i := 0 to |order|
      invariant |due| <= PER_RUN
      invariant FirstDue(rows, order, now, PER_RUN) == due + FirstDue(rows, order[i..], now, PER_RUN - |due|)
    {
      assert order[i..][1..] == order[i + 1..];
      if |due| < PER_RUN && IsDue(rows[order[i]], now) { due := due + [order[i]]; }
    }
  }

  lemma {:induction false} FirstDueMembers(table: Table, order: seq<Id>, now: int, most: nat)
    requires forall x | x in order :: x in table
    ensures |FirstDue(table, order, now, most)| <= most
    ensures forall x | x in FirstDue(table, order, now, most) :: x in order && IsDue(table[x], now)
    decreases |order|
  {
    if order != [] && most > 0 {
      FirstDueMembers(table, order[1..], now, most - 1);
      FirstDueMembers(table, order[1..], now, most);
    }
  }

  lemma {:induction false} FirstDueOnce(table: Table, order: seq<Id>, now: int, most: nat)
    requires (forall x | x in order :: x in table) && Distinct(order)
    ensures Distinct(FirstDue(table, order, now, most))
    decreases |order|
  {
    if order != [] && most > 0 {
      FirstDueOnce(table, order[1..], now, most - 1);
      FirstDueOnce(table, order[1..], now, most);
      FirstDueMembers(table, order[1..], now, most - 1);
      if IsDue(table[order[0]], now) {
        assert FirstDue(table, order, now, most)[1..] == FirstDue(table, order[1..], now, most - 1);
      }
    }
  }

  /** A due domain that is passed over is passed over for a full batch, all of
      which stand before it. */
  lemma {:induction false} PassedOverFor(table: Table, order: seq<Id>, now: int, most: nat, i: nat)
    requires forall x | x in order :: x in table
    requires i < |order| && IsDue(table[order[i]], now) && order[i] !in FirstDue(table, order, now, most)
    ensures |FirstDue(table, order, now, most)| == most
    ensures forall x | x in FirstDue(table, order, now, most) :: x in order[..i]
    decreases |order|
  {
    if most > 0 {
      var rest := order[1..];
      if i > 0 {
        assert rest[i - 1] == order[i];
        assert forall x | x in rest[..i - 1] :: x in order[..i] by {
          assert order[..i] == [order[0]] + rest[..i - 1];
        }
        PassedOverFor(table, rest, now, if IsDue(table[order[0]], now) then most - 1 else most, i - 1);
        assert order[0] in order[..i];
      }
    }
  }

  // ---------------------------------------------------------- everyone's turn

  /** Those that do not come after x. */
  ghost function Ahead(table: Table, x: Id): set<Id>
    requires x in table
  {
    set y | y in table && y != x && NotAfter(table[y], table[x])
  }

  /** One run: the table it finds, when, in what order, and what comes of the
      lookups. */
  datatype Run = Run(found: Table, now: int, order: seq<Id>, lookup: Id -> Lookup)

  ghost function BatchOf(r: Run): seq<Id>
    requires InOrder(r.found, r.order)
  {
    FirstDue(r.found, r.order, r.now, PER_RUN)
  }

  ghost function AfterRun(r: Run): Table
    requires InOrder(r.found, r.order)
  {
    AfterBatch(r.found, BatchOf(r), r.lookup, r.now)
  }

  /** Every run that passes over a due domain brings a full batch of those
      ahead of it behind it, and nobody past it. */
  lemma PassedOverMovesUp(r: Run, x: Id)
    requires x in r.found && InOrder(r.found, r.order) && IsDue(r.found[x], r.now)
    requires x !in BatchOf(r)
    requires forall y | y in BatchOf(r) :: !r.lookup(y).Raises?
    requires r.found[x].lastChecked.Some? ==> r.found[x].lastChecked.value < r.now
    ensures AfterRun(r).Keys == r.found.Keys && AfterRun(r)[x] == r.found[x]
    ensures |Ahead(AfterRun(r), x)| + PER_RUN == |Ahead(r.found, x)|
  {
    hide IsDue, FirstDue, InOrder, NotAfter, Distinct;
    var batch := BatchOf(r);
    BatchAhead(r, x);
    StampedGoBehind(batch, r, x);
    assert Ahead(AfterRun(r), x) == Ahead(r.found, x) - Members(batch);
  }

  lemma BatchAhead(r: Run, x: Id)
    requires x in r.found && InOrder(r.found, r.order) && IsDue(r.found[x], r.now)
    requires x !in BatchOf(r)
    ensures Members(BatchOf(r)) <= Ahead(r.found, x) && |Members(BatchOf(r))| == PER_RUN
  {
    hide IsDue, FirstDue;
    var (table, batch) := (r.found, BatchOf(r));
    var i :| 0 <= i < |r.order| && r.order[i] == x;
    PassedOverFor(table, r.order, r.now, PER_RUN, i);
    FirstDueOnce(table, r.order, r.now, PER_RUN);
    DistinctCount(batch);
    forall y | y in batch ensures y in Ahead(table, x) {
      var j :| 0 <= j < i && r.order[j] == y;
      assert NotAfter(table[r.order[j]], table[r.order[i]]);
    }
  }

  /** Who was stamped is no longer ahead; who was not stands where it stood. */
  lemma StampedGoBehind(batch: seq<Id>, r: Run, x: Id)
    requires x in r.found && x !in batch && forall y | y in batch :: !r.lookup(y).Raises?
    requires r.found[x].lastChecked.Some? ==> r.found[x].lastChecked.value < r.now
    ensures var after := AfterBatch(r.found, batch, r.lookup, r.now);
      after.Keys == r.found.Keys && after[x] == r.found[x]
      && forall y | y in r.found && y != x ::
           NotAfter(after[y], after[x]) <==> y !in batch && NotAfter(r.found[y], r.found[x])
  {
  }

  ghost function Members(xs: seq<Id>): set<Id> {
    set x | x in xs
  }

  lemma {:induction false} DistinctCount(xs: seq<Id>)
    requires Distinct(xs)
    ensures |Members(xs)| == |xs|
    decreases |xs|
  {
    if xs == [] {
      assert Members(xs) == {};
    } else {
      var rest := xs[1..];
      DistinctCount(rest);
      assert xs == [xs[0]] + rest;
      assert Members(xs) == {xs[0]} + Members(rest);
      assert xs[0] !in Members(rest);
    }
  }

  /** The runs follow each other in time, the database orders the rows for
      each, and every lookup comes back with something to store. Between two
      runs domains may come and go and change in any way but for x. */
  ghost predicate Orderly(table: Table, runs: seq<Run>, x: Id)
    decreases |runs|
  {
    runs == [] ||
    (&& InOrder(runs[0].found, runs[0].order)
     && x in table && x in runs[0].found && runs[0].found[x] == table[x]
     && (forall y | y in BatchOf(runs[0]) :: !runs[0].lookup(y).Raises?)
     && (forall i | 1 <= i < |runs| :: runs[0].now < runs[i].now)
     && (x in BatchOf(runs[0]) || Orderly(AfterRun(runs[0]), runs[1..], x)))
  }

  ghost predicate Takes(r: Run, x: Id) {
    InOrder(r.found, r.order) && x in BatchOf(r)
  }

  ghost predicate CheckedIn(runs: seq<Run>, x: Id) {
    exists r :: r in runs && Takes(r, x)
  }

  /** Between the runs, those that come to stand ahead of x and did not before. */
  ghost function Overtaking(table: Table, runs: seq<Run>, x: Id): nat
    requires Orderly(table, runs, x)
    decreases |runs|
  {
    if runs == [] then 0
    else
      |Ahead(runs[0].found, x) - Ahead(table, x)|
      + if x in BatchOf(runs[0]) then 0 else Overtaking(AfterRun(runs[0]), runs[1..], x)
  }

  lemma Overtaken(table: Table, found: Table, x: Id)
    requires x in table && x in found
    ensures |Ahead(found, x)| <= |Ahead(table, x)| + |Ahead(found, x) - Ahead(table, x)|
  {
    var (was, now) := (Ahead(table, x), Ahead(found, x));
    assert now == (now * was) + (now - was);
    SubsetSize(now * was, was);
  }

  /** One that is due and stays due has its turn as soon as the runs have room
      for all ahead of it, those counted that overtake it in between. */
  lemma {:induction false} TurnComes(table: Table, runs: seq<Run>, x: Id)
    requires x in table && Orderly(table, runs, x) && runs != []
    requires 30 * |runs| > |Ahead(table, x)| + Overtaking(table, runs, x)
    requires IsDue(table[x], runs[0].now)
    requires table[x].lastChecked.Some? ==> table[x].lastChecked.value < runs[0].now
    requires forall i | 0 <= i < |runs| :: !WindowClosed(table[x], runs[0].now, runs[i].now)
    requires forall i, j | 0 <= i < j < |runs| :: !WindowClosed(table[x], runs[i].now, runs[j].now)
    ensures CheckedIn(runs, x)
    decreases |runs|
  {
    if x in BatchOf(runs[0]) {
      assert Takes(runs[0], x);
    } else {
      PassedOverMovesUp(runs[0], x);
      Overtaken(table, runs[0].found, x);
      var (next, rest) := (AfterRun(runs[0]), runs[1..]);
      assert rest != [];
      assert rest[0] == runs[1];
      DueUntilChecked(table[x], runs[0].now, rest[0].now);
      forall i, j | 0 <= i < j < |rest| ensures !WindowClosed(next[x], rest[i].now, rest[j].now) {
        assert !WindowClosed(table[x], runs[i + 1].now, runs[j + 1].now);
      }
      TurnComes(next, rest, x);
      var r :| r in rest && Takes(r, x);
      assert r in runs;
    }
  }

  /** Between the runs, the domains added. */
  ghost function Added(table: Table, runs: seq<Run>, x: Id): nat
    requires Orderly(table, runs, x)
    decreases |runs|
  {
    if runs == [] then 0
    else
      |runs[0].found.Keys - table.Keys| + if x in BatchOf(runs[0]) then 0 else Added(AfterRun(runs[0]), runs[1..], x)
  }

  /** Between the runs, no domain's stamp is set back. */
  ghost predicate StampsRise(table: Table, runs: seq<Run>, x: Id)
    requires Orderly(table, runs, x)
    decreases |runs|
  {
    runs == [] ||
    (&& (forall y | y in table && y in runs[0].found :: NotAfter(table[y], runs[0].found[y]))
     && (x in BatchOf(runs[0]) || StampsRise(AfterRun(runs[0]), runs[1..], x)))
  }

  lemma {:induction false} OvertakenByAdded(table: Table, runs: seq<Run>, x: Id)
    requires Orderly(table, runs, x) && StampsRise(table, runs, x)
    ensures Overtaking(table, runs, x) <= Added(table, runs, x)
    decreases |runs|
  {
    if runs != [] {
      var found := runs[0].found;
      assert Ahead(found, x) - Ahead(table, x) <= found.Keys - table.Keys;
      SubsetSize(Ahead(found, x) - Ahead(table, x), found.Keys - table.Keys);
      if x !in BatchOf(runs[0]) { OvertakenByAdded(AfterRun(runs[0]), runs[1..], x); }
    }
  }

  /** Of N domains, one that is due and stays due is looked up within
      ceil((N + A) / 30) runs, when A are added before its turn: within
      ceil(N / 30) when none is. */
  lemma TurnWithinBound(table: Table, runs: seq<Run>, x: Id)
    requires x in table && Orderly(table, runs, x) && StampsRise(table, runs, x)
    requires 30 * |runs| >= |table| + Added(table, runs, x)
    requires IsDue(table[x], runs[0].now)
    requires table[x].lastChecked.Some? ==> table[x].lastChecked.value < runs[0].now
    requires forall i, j | 0 <= i < j < |runs| :: !WindowClosed(table[x], runs[i].now, runs[j].now)
    ensures CheckedIn(runs, x)
  {
    assert Ahead(table, x) <= table.Keys - {x};
    SubsetSize(Ahead(table, x), table.Keys - {x});
    assert |table.Keys - {x}| == |table| - 1;
    OvertakenByAdded(table, runs, x);
    TurnComes(table, runs, x);
  }

  /** The bound needs lookups that come back: when all of a batch raise, the
      run leaves everything as it was, and the same rows come first again. */
  lemma RaisingChangesNothing(r: Run)
    requires InOrder(r.found, r.order) && forall y | y in BatchOf(r) :: r.lookup(y).Raises?
    ensures AfterRun(r) == r.found
  {
  }
}
