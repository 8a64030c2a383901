/** One lookup for many callers (crtsh.py).

    Callers that ask for a name already being looked up join that lookup. Each
    section under the lock, each wait and each request is one atomic step of
    one caller; the invariant holds in every interleaving of any number of
    callers. What a request comes to is arbitrary. */
module CrtSh {
  import opened Common

  type Key = string
  type FlightId = nat
  type CallerId = nat

  datatype Outcome = Found(rows: seq<string>) | NotFound(error: string, mayFallBack: bool)

  const NO_OUTCOME := NotFound("crt.sh lookup failed", true)

  /** A lookup that several callers can share: who leads it, how long he tries,
      and its outcome, which counts from `done` on. */
  datatype Flight = Flight(key: Key, timeout: int, attempts: int, leader: CallerId, waiters: nat,
                           outcome: Outcome, done: bool)

  datatype Source = Own | Shared(flight: FlightId)

  /** Where a caller is. */
  datatype Place =
    | Start                                        // at the top of the loop
    | Leading(flight: FlightId)                    // asking, for whoever joins
    | Answered(flight: FlightId, raised: bool)     // asked; still in the table
    | Withdrawn(flight: FlightId, raised: bool)    // out of the table; not announced
    | Waiting(flight: FlightId)
    | AskingAlone                                  // the wait ran out
    | Returned(outcome: Outcome, source: Source)
    | Raised

  /** A caller, and the finished lookups that did not answer for it. */
  datatype Caller = Caller(key: Key, timeout: int, attempts: int, place: Place, tried: seq<FlightId>)

  datatype State = State(callers: seq<Caller>, flights: seq<Flight>, table: map<Key, FlightId>)

  /** The lookup waits as long for an answer, and as often, as the caller asks. */
  predicate Covers(f: Flight, c: Caller) {
    f.timeout >= c.timeout && f.attempts >= c.attempts
  }

  // -------------------------------------------------------------------- steps

  /** The answer to a request; none when it raised. */
  datatype Step =
    | Enter(c: CallerId)
    | Ask(c: CallerId, answer: Option<Outcome>)
    | Withdraw(c: CallerId)
    | Announce(c: CallerId)
    | Wake(c: CallerId)
    | GiveUp(c: CallerId)
    | AskAlone(c: CallerId, answer: Option<Outcome>)

  predicate InRange(s: State) {
    forall c | 0 <= c < |s.callers| ::
      match s.callers[c].place
      case Leading(f) => f < |s.flights|
      case Answered(f, _) => f < |s.flights|
      case Withdrawn(f, _) => f < |s.flights|
      case Waiting(f) => f < |s.flights|
      case _ => true
  }

  predicate Enabled(s: State, step: Step)
    requires InRange(s)
  {
    step.c < |s.callers| &&
    match step
    case Enter(c) => s.callers[c].place.Start?
    case Ask(c, _) => s.callers[c].place.Leading?
    case Withdraw(c) => s.callers[c].place.Answered?
    case Announce(c) => s.callers[c].place.Withdrawn?
    case Wake(c) => s.callers[c].place.Waiting? && s.flights[s.callers[c].place.flight].done
    case GiveUp(c) => s.callers[c].place.Waiting? && !s.flights[s.callers[c].place.flight].done
    case AskAlone(c, _) => s.callers[c].place.AskingAlone?
  }

  function Goes(s: State, c: CallerId, place: Place): seq<Caller>
    requires c < |s.callers|
  {
    s.callers[c := s.callers[c].(place := place)]
  }

  function Next(s: State, step: Step): State
    requires InRange(s) && Enabled(s, step)
  {
    var me := s.callers[step.c];
    match step
    case Enter(c) =>
      if me.key in s.table && s.table[me.key] < |s.flights| then
        var f := s.table[me.key];
        s.(callers := Goes(s, c, Waiting(f)),
           flights := s.flights[f := s.flights[f].(waiters := s.flights[f].waiters + 1)])
      else
        s.(callers := Goes(s, c, Leading(|s.flights|)),
           flights := s.flights + [Flight(me.key, me.timeout, me.attempts, c, 0, NO_OUTCOME, false)],
           table := s.table[me.key := |s.flights|])
    case Ask(c, answer) =>
      var f := me.place.flight;
      s.(callers := Goes(s, c, Answered(f, answer.None?)),
         flights := if answer.None? then s.flights else s.flights[f := s.flights[f].(outcome := answer.value)])
    case Withdraw(c) =>
      var f := me.place.flight;
      s.(callers := Goes(s, c, Withdrawn(f, me.place.raised)),
         table := if me.key in s.table && s.table[me.key] == f then s.table - {me.key} else s.table)
    case Announce(c) =>
      var f := me.place.flight;
      s.(callers := Goes(s, c, if me.place.raised then Raised else Returned(s.flights[f].outcome, Own)),
         flights := s.flights[f := s.flights[f].(done := true)])
    case Wake(c) =>
      var f := me.place.flight;
      if s.flights[f].outcome.Found? || Covers(s.flights[f], me) then
        s.(callers := Goes(s, c, Returned(s.flights[f].outcome, Shared(f))))
      else
        s.(callers := s.callers[c := me.(place := Start, tried := me.tried + [f])])
    case GiveUp(c) =>
      s.(callers := Goes(s, c, AskingAlone))
    case AskAlone(c, answer) =>
      s.(callers := Goes(s, c, if answer.None? then Raised else Returned(answer.value, Own)))
  }

  /** The shared table and the callers, changed in place: one method per
      section that nothing interrupts. */
  class Lookups {
    var callers: seq<Caller>
    var flights: seq<Flight>
    var table: map<Key, FlightId>

    function Model(): State
      reads this
    {
      State(callers, flights, table)
    }

    method Move(c: CallerId, place: Place)
      requires c < |callers|
      modifies this`callers
      ensures callers == Goes(old(Model()), c, place)
    {
      callers := callers[c := callers[c].(place := place)];
    }

    /** Under the lock: join the lookup of the name, or start one. */
    method Join(c: CallerId)
      requires InRange(Model()) && Enabled(Model(), Enter(c))
      modifies this
      ensures Model() == Next(old(Model()), Enter(c))
    {
      var me := callers[c];
      if me.key in table && table[me.key] < |flights| {
        var f := table[me.key];
        flights := flights[f := flights[f].(waiters := flights[f].waiters + 1)];
        Move(c, Waiting(f));
      } else {
        table := table[me.key := |flights|];
        Move(c, Leading(|flights|));
        flights := flights + [Flight(me.key, me.timeout, me.attempts, c, 0, NO_OUTCOME, false)];
      }
    }

    /** The leader's request comes back, or raises. */
    method Answer(c: CallerId, answer: Option<Outcome>)
      requires InRange(Model()) && Enabled(Model(), Ask(c, answer))
      modifies this
      ensures Model() == Next(old(Model()), Ask(c, answer))
    {
      var f := callers[c].place.flight;
      if answer.Some? { flights := flights[f := flights[f].(outcome := answer.value)]; }
      Move(c, Answered(f, answer.None?));
    }

    /** Under the lock: take the lookup out of the table, if it is still there. */
    method TakeOut(c: CallerId)
      requires InRange(Model()) && Enabled(Model(), Withdraw(c))
      modifies this
      ensures Model() == Next(old(Model()), Withdraw(c))
    {
      var me := callers[c];
      if me.key in table && table[me.key] == me.place.flight { table := table - {me.key}; }
      Move(c, Withdrawn(me.place.flight, me.place.raised));
    }

    /** Let those who wait go on, and return. */
    method SetDone(c: CallerId)
      requires InRange(Model()) && Enabled(Model(), Announce(c))
      modifies this
      ensures Model() == Next(old(Model()), Announce(c))
    {
      var me := callers[c];
      var f := me.place.flight;
      flights := flights[f := flights[f].(done := true)];
      Move(c, if me.place.raised then Raised else Returned(flights[f].outcome, Own));
    }

    /** The lookup waited for is done: its outcome, or another round. */
    method AfterWait(c: CallerId)
      requires InRange(Model()) && Enabled(Model(), Wake(c))
      modifies this
      ensures Model() == Next(old(Model()), Wake(c))
    {
      var me := callers[c];
      var f := me.place.flight;
      if flights[f].outcome.Found? || Covers(flights[f], me) {
        Move(c, Returned(flights[f].outcome, Shared(f)));
      } else {
        callers := callers[c := me.(place := Start, tried := me.tried + [f])];
      }
    }
  }

  // ---------------------------------------------------------------- invariant

  /** What a caller's place says about the lookup it is at. */
  ghost predicate CallerOk(s: State, c: CallerId)
    requires c < |s.callers|
  {
    var me := s.callers[c];
    && (match me.place
        case Leading(f) => f < |s.flights| && s.flights[f].leader == c
        case Answered(f, _) => f < |s.flights| && s.flights[f].leader == c
        case Withdrawn(f, _) => f < |s.flights| && s.flights[f].leader == c
        case Waiting(f) =>
          f < |s.flights| && s.flights[f].key == me.key && s.flights[f].leader != c && f !in me.tried
        case Returned(outcome, Shared(f)) =>
          f < |s.flights| && s.flights[f].key == me.key && s.flights[f].done && s.flights[f].outcome == outcome
          && (outcome.Found? || Covers(s.flights[f], me))
        case _ => true)
    && (forall f | f in me.tried :: TriedOk(s, me, c, f))
    && (forall i, j | 0 <= i < j < |me.tried| :: me.tried[i] != me.tried[j])
  }

  /** A lookup tried in vain: finished, led by another, without rows, and less
      patient than this caller. */
  ghost predicate TriedOk(s: State, me: Caller, c: CallerId, f: FlightId) {
    f < |s.flights| && s.flights[f].key == me.key && s.flights[f].done && s.flights[f].leader != c
    && s.flights[f].outcome.NotFound? && !Covers(s.flights[f], me)
  }

  /** A lookup is led by one caller, for its own name and with its own
      patience; it is in the table until that caller withdraws it, and done
      once that caller has returned. */
  ghost predicate FlightOk(s: State, f: FlightId)
    requires f < |s.flights|
  {
    var fl := s.flights[f];
    fl.leader < |s.callers| &&
    var boss := s.callers[fl.leader];
    && fl.key == boss.key && fl.timeout == boss.timeout && fl.attempts == boss.attempts
    && (boss.place == Leading(f) || (boss.place.Answered? && boss.place.flight == f)
        || (boss.place.Withdrawn? && boss.place.flight == f)
        || (boss.place.Returned? && boss.place.source == Own) || boss.place.Raised?)
    && (fl.done <==> boss.place.Returned? || boss.place.Raised?)
    && (boss.place.Leading? || boss.place.Answered? <==> fl.key in s.table && s.table[fl.key] == f)
  }

  ghost predicate Inv(s: State) {
    && InRange(s)
    && (forall c | 0 <= c < |s.callers| :: CallerOk(s, c))
    && (forall f | 0 <= f < |s.flights| :: FlightOk(s, f))
    && (forall f, g | 0 <= f < g < |s.flights| :: s.flights[f].leader != s.flights[g].leader)
    && (forall k | k in s.table :: s.table[k] < |s.flights| && s.flights[s.table[k]].key == k)
  }

  lemma CallersInRange(s: State)
    requires forall c | 0 <= c < |s.callers| :: CallerOk(s, c)
    ensures InRange(s)
  {
    forall c | 0 <= c < |s.callers|
      ensures match s.callers[c].place
              case Leading(f) => f < |s.flights|
              case Answered(f, _) => f < |s.flights|
              case Withdrawn(f, _) => f < |s.flights|
              case Waiting(f) => f < |s.flights|
              case _ => true
    {
      assert CallerOk(s, c);
    }
  }

  /** What no step takes back: lookups keep who leads them and for what, and
      once done they keep what they found. */
  ghost predicate Extends(s: State, t: State) {
    && |t.callers| == |s.callers| && |s.flights| <= |t.flights|
    && forall f | 0 <= f < |s.flights| :: FlightKept(s.flights[f], t.flights[f])
  }

  ghost predicate FlightKept(f: Flight, g: Flight) {
    && g.key == f.key && g.timeout == f.timeout && g.attempts == f.attempts && g.leader == f.leader
    && (f.done ==> g.done && g.outcome == f.outcome)
  }

  lemma CallerKept(s: State, t: State, c: CallerId)
    requires c < |s.callers| && Extends(s, t) && CallerOk(s, c) && t.callers[c] == s.callers[c]
    ensures CallerOk(t, c)
  {
    var me := s.callers[c];
    forall f | f in me.tried ensures TriedOk(t, me, c, f) {
      assert TriedOk(s, me, c, f);
      assert FlightKept(s.flights[f], t.flights[f]);
    }
    match me.place
    case Leading(f) => assert FlightKept(s.flights[f], t.flights[f]);
    case Answered(f, _) => assert FlightKept(s.flights[f], t.flights[f]);
    case Withdrawn(f, _) => assert FlightKept(s.flights[f], t.flights[f]);
    case Waiting(f) => assert FlightKept(s.flights[f], t.flights[f]);
    case Returned(outcome, Shared(f)) => assert FlightKept(s.flights[f], t.flights[f]);
    case _ =>
  }

  lemma NextExtends(s: State, step: Step)
    requires Inv(s) && Enabled(s, step)
    ensures Extends(s, Next(s, step))
    ensures forall c | 0 <= c < |s.callers| && c != step.c :: Next(s, step).callers[c] == s.callers[c]
  {
    if step.Ask? {
      var f := s.callers[step.c].place.flight;
      assert CallerOk(s, step.c) && FlightOk(s, f);
    }
  }

  /** The tried lookups of a caller that moved are as they were. */
  lemma TriedKept(s: State, t: State, c: CallerId, me: Caller)
    requires c < |s.callers| && Extends(s, t) && CallerOk(s, c)
    requires me.key == s.callers[c].key && me.timeout == s.callers[c].timeout && me.attempts == s.callers[c].attempts
    ensures forall f | f in s.callers[c].tried :: TriedOk(t, me, c, f)
  {
    forall f | f in s.callers[c].tried ensures TriedOk(t, me, c, f) {
      assert TriedOk(s, s.callers[c], c, f);
      assert FlightKept(s.flights[f], t.flights[f]);
    }
  }

  lemma MoverOk(s: State, step: Step)
    requires Inv(s) && Enabled(s, step)
    ensures CallerOk(Next(s, step), step.c)
  {
    var (c, t) := (step.c, Next(s, step));
    var me := s.callers[c];
    NextExtends(s, step);
    assert CallerOk(s, c);
    TriedKept(s, t, c, t.callers[c]);
    match step
    case Enter(_) =>
      if me.key in s.table {
        var f := s.table[me.key];
        assert FlightOk(s, f);
        assert FlightKept(s.flights[f], t.flights[f]);
        assert !s.flights[f].done;
        assert f in me.tried ==> TriedOk(s, me, c, f);
      }
    case Wake(_) =>
      var f := me.place.flight;
      if !(s.flights[f].outcome.Found? || Covers(s.flights[f], me)) {
        assert TriedOk(t, t.callers[c], c, f);
      }
    case _ =>
  }

  lemma FlightStays(s: State, step: Step, g: FlightId)
    requires Inv(s) && Enabled(s, step) && g < |s.flights|
    ensures FlightOk(Next(s, step), g)
  {
    match step
    case Enter(_) => FlightStaysOnEnter(s, step, g);
    case Withdraw(_) => FlightStaysOnWithdraw(s, step, g);
    case _ => FlightStaysOtherwise(s, step, g);
  }

  lemma FlightStaysOnEnter(s: State, step: Step, g: FlightId)
    requires Inv(s) && Enabled(s, step) && g < |s.flights| && step.Enter?
    ensures FlightOk(Next(s, step), g)
  {
    var me := s.callers[step.c];
    assert FlightOk(s, g);
    if me.key in s.table { assert FlightOk(s, s.table[me.key]); }
  }

  lemma FlightStaysOnWithdraw(s: State, step: Step, g: FlightId)
    requires Inv(s) && Enabled(s, step) && g < |s.flights| && step.Withdraw?
    ensures FlightOk(Next(s, step), g)
  {
    assert FlightOk(s, g) && CallerOk(s, step.c) && FlightOk(s, s.callers[step.c].place.flight);
  }

  lemma FlightStaysOtherwise(s: State, step: Step, g: FlightId)
    requires Inv(s) && Enabled(s, step) && g < |s.flights| && !step.Enter? && !step.Withdraw?
    ensures FlightOk(Next(s, step), g)
  {
    if step.Ask? || step.Announce? {
      FlightStaysOnWork(s, step, g);
    } else {
      assert FlightOk(s, g) && CallerOk(s, step.c);
    }
  }

  lemma FlightStaysOnWork(s: State, step: Step, g: FlightId)
    requires Inv(s) && Enabled(s, step) && g < |s.flights| && (step.Ask? || step.Announce?)
    ensures FlightOk(Next(s, step), g)
  {
    assert FlightOk(s, g) && CallerOk(s, step.c) && FlightOk(s, s.callers[step.c].place.flight);
  }

  /** Every step keeps the invariant. */
  lemma StepKeepsInv(s: State, step: Step)
    requires Inv(s) && Enabled(s, step)
    ensures Inv(Next(s, step))
  {
    var (c, t) := (step.c, Next(s, step));
    NextExtends(s, step);
    forall d | 0 <= d < |t.callers| ensures CallerOk(t, d) {
      if d == c { MoverOk(s, step); } else {
        assert CallerOk(s, d);
        CallerKept(s, t, d);
      }
    }
    CallersInRange(t);
    forall g | 0 <= g < |t.flights| ensures FlightOk(t, g) {
      if g < |s.flights| { FlightStays(s, step, g); }
    }
    LeadersApart(s, step);
    forall k | k in t.table ensures t.table[k] < |t.flights| && t.flights[t.table[k]].key == k {
      if k in s.table && t.table[k] == s.table[k] {
        assert FlightKept(s.flights[s.table[k]], t.flights[s.table[k]]);
      }
    }
  }

  lemma LeadersApart(s: State, step: Step)
    requires Inv(s) && Enabled(s, step)
    ensures var t := Next(s, step);
      forall f, g | 0 <= f < g < |t.flights| :: t.flights[f].leader != t.flights[g].leader
  {
    var t := Next(s, step);
    NextExtends(s, step);
    forall f, g | 0 <= f < g < |t.flights| ensures t.flights[f].leader != t.flights[g].leader {
      assert FlightOk(s, f) && FlightKept(s.flights[f], t.flights[f]);
      if g < |s.flights| { assert FlightKept(s.flights[g], t.flights[g]); }
    }
  }

  ghost predicate Initial(s: State) {
    && s.flights == [] && s.table == map[]
    && forall c | 0 <= c < |s.callers| :: s.callers[c].place == Start && s.callers[c].tried == []
  }

  /** A run: every step enabled when it is taken. */
  ghost predicate IsRun(s: State, steps: seq<Step>)
    decreases |steps|
  {
    steps == [] || (InRange(s) && Enabled(s, steps[0]) && IsRun(Next(s, steps[0]), steps[1..]))
  }

  ghost function After(s: State, steps: seq<Step>): State
    requires IsRun(s, steps)
    decreases |steps|
  {
    if steps == [] then s else After(Next(s, steps[0]), steps[1..])
  }

  lemma {:induction false} RunKeepsInv(s: State, steps: seq<Step>)
    requires Inv(s) && IsRun(s, steps)
    ensures Inv(After(s, steps))
    decreases |steps|
  {
    if steps != [] {
      StepKeepsInv(s, steps[0]);
      RunKeepsInv(Next(s, steps[0]), steps[1..]);
    }
  }

  // ------------------------------------------------------ what follows from it

  predicate IsLeading(p: Place) {
    p.Leading? || p.Answered?
  }

  /** In every interleaving: at most one caller leads a lookup of a name; what
      a caller could join is never withdrawn or done; an outcome is shared
      only when it has rows or its lookup was patient enough. */
  lemma ProtocolSafe(start: State, steps: seq<Step>)
    requires Initial(start) && IsRun(start, steps)
    ensures var s := After(start, steps);
      && Inv(s)
      && (forall c, d | 0 <= c < d < |s.callers| && IsLeading(s.callers[c].place) && IsLeading(s.callers[d].place) ::
            s.callers[c].key != s.callers[d].key)
      && (forall k | k in s.table :: s.table[k] < |s.flights| && Joinable(s, s.flights[s.table[k]]))
      && (forall c | 0 <= c < |s.callers| :: FairlyServed(s, s.callers[c]))
  {
    assert Inv(start);
    RunKeepsInv(start, steps);
    var s := After(start, steps);
    forall c, d | 0 <= c < d < |s.callers| && IsLeading(s.callers[c].place) && IsLeading(s.callers[d].place)
      ensures s.callers[c].key != s.callers[d].key
    {
      assert CallerOk(s, c) && CallerOk(s, d);
      assert FlightOk(s, s.callers[c].place.flight) && FlightOk(s, s.callers[d].place.flight);
    }
    forall k | k in s.table ensures Joinable(s, s.flights[s.table[k]]) { assert FlightOk(s, s.table[k]); }
    forall c | 0 <= c < |s.callers| ensures FairlyServed(s, s.callers[c]) { assert CallerOk(s, c); }
  }

  ghost predicate Joinable(s: State, f: Flight) {
    !f.done && f.leader < |s.callers| && IsLeading(s.callers[f.leader].place)
  }

  ghost predicate FairlyServed(s: State, me: Caller) {
    me.place.Returned? && me.place.source.Shared? ==>
      && me.place.source.flight < |s.flights|
      && var f := s.flights[me.place.source.flight];
         && f.key == me.key && f.done && f.outcome == me.place.outcome
         && (f.outcome.Found? || (f.timeout >= me.timeout && f.attempts >= me.attempts))
  }

  /** The other callers of the name that would have given up sooner. */
  ghost function LessPatient(s: State, c: CallerId): set<CallerId>
    requires c < |s.callers|
  {
    set d | 0 <= d < |s.callers| && d != c && s.callers[d].key == s.callers[c].key
            && !(s.callers[d].timeout >= s.callers[c].timeout && s.callers[d].attempts >= s.callers[c].attempts)
  }

  /** Who led the listed lookups. */
  ghost function Leaders(s: State, tried: seq<FlightId>): set<CallerId>
    requires forall f | f in tried :: f < |s.flights|
  {
    if tried == [] then {}
    else
      var (init, last) := (tried[..|tried| - 1], tried[|tried| - 1]);
      assert forall f | f in init :: f in tried;
      assert last in tried;
      Leaders(s, init) + {s.flights[last].leader}
  }

  lemma {:induction false} LeadersAre(s: State, tried: seq<FlightId>, d: CallerId)
    requires forall f | f in tried :: f < |s.flights|
    ensures d in Leaders(s, tried) <==> exists f :: f in tried && s.flights[f].leader == d
    decreases |tried|
  {
    if tried != [] {
      var (init, last) := (tried[..|tried| - 1], tried[|tried| - 1]);
      assert (forall f | f in init :: f in tried) && last in tried;
      assert tried == init + [last];
      LeadersAre(s, init, d);
    }
  }

  lemma {:induction false} LeadersCount(s: State, tried: seq<FlightId>)
    requires forall f | f in tried :: f < |s.flights|
    requires forall f, g | 0 <= f < g < |s.flights| :: s.flights[f].leader != s.flights[g].leader
    requires forall i, j | 0 <= i < j < |tried| :: tried[i] != tried[j]
    ensures |Leaders(s, tried)| == |tried|
    decreases |tried|
  {
    if tried != [] {
      var (init, last) := (tried[..|tried| - 1], tried[|tried| - 1]);
      assert (forall f | f in init :: f in tried) && last in tried;
      assert tried == init + [last];
      LeadersCount(s, init);
      LeadersAre(s, init, s.flights[last].leader);
      assert last !in init;
    }
  }

  /** A caller goes round the loop at most once for every less patient caller
      of the same name: each round uses up the lookup of another of them. */
  lemma RoundsBounded(s: State, c: CallerId)
    requires Inv(s) && c < |s.callers|
    ensures |s.callers[c].tried| <= |LessPatient(s, c)| < |s.callers|
  {
    var me := s.callers[c];
    assert CallerOk(s, c);
    forall f | f in me.tried ensures f < |s.flights| { assert TriedOk(s, me, c, f); }
    LeadersCount(s, me.tried);
    forall d | d in Leaders(s, me.tried) ensures d in LessPatient(s, c) {
      LeadersAre(s, me.tried, d);
      var f :| f in me.tried && s.flights[f].leader == d;
      assert TriedOk(s, me, c, f) && FlightOk(s, f);
    }
    SubsetSize(Leaders(s, me.tried), LessPatient(s, c));
    SubsetSize(LessPatient(s, c), Below(|s.callers|) - {c});
    assert |Below(|s.callers|) - {c}| == |s.callers| - 1;
  }

  ghost function Below(n: nat): (all: set<nat>)
    ensures |all| == n && forall d: nat :: d in all <==> d < n
  {
    if n == 0 then {} else Below(n - 1) + {n - 1}
  }

  // ------------------------------------------------------ whose answer it is

  /** A request of the caller's own came to this; none when it raised. */
  predicate Asked(past: seq<Step>, c: CallerId, answer: Option<Outcome>) {
    Ask(c, answer) in past || AskAlone(c, answer) in past
  }

  ghost predicate AskedOnly(past: seq<Step>, c: CallerId, answer: Option<Outcome>) {
    Asked(past, c, answer) && forall a: Option<Outcome> | Asked(past, c, a) :: a == answer
  }

  ghost predicate NeverAsked(past: seq<Step>, c: CallerId) {
    forall a: Option<Outcome> :: !Asked(past, c, a)
  }

  /** This is what a leader's request came to: its answer, or when it raised
      the failure a lookup begins with. */
  predicate Learnt(past: seq<Step>, leader: CallerId, outcome: Outcome) {
    Ask(leader, Some(outcome)) in past
    || (Ask(leader, None) in past && outcome == NotFound("crt.sh lookup failed", true))
  }

  /** What the steps so far say of a caller at its place. */
  ghost predicate CallerTraced(s: State, past: seq<Step>, c: CallerId)
    requires c < |s.callers|
  {
    match s.callers[c].place
    case Answered(f, raised) => LeaderTraced(s, past, c, f, raised)
    case Withdrawn(f, raised) => LeaderTraced(s, past, c, f, raised)
    case Returned(outcome, Own) => AskedOnly(past, c, Some(outcome))
    case Returned(outcome, Shared(f)) =>
      NeverAsked(past, c) && f < |s.flights| && Learnt(past, s.flights[f].leader, outcome)
    case Raised => AskedOnly(past, c, None)
    case _ => NeverAsked(past, c)
  }

  ghost predicate LeaderTraced(s: State, past: seq<Step>, c: CallerId, f: FlightId, raised: bool) {
    f < |s.flights| && Learnt(past, c, s.flights[f].outcome)
    && AskedOnly(past, c, if raised then None else Some(s.flights[f].outcome))
  }

  /** A lookup says nothing before its leader has asked, and from when it is
      done what its leader learnt. */
  ghost predicate FlightTraced(s: State, past: seq<Step>, f: FlightId)
    requires f < |s.flights|
  {
    var fl := s.flights[f];
    && (fl.done ==> Learnt(past, fl.leader, fl.outcome))
    && (fl.leader < |s.callers| && s.callers[fl.leader].place == Leading(f) ==>
          fl.outcome == NotFound("crt.sh lookup failed", true))
  }

  ghost predicate Traced(s: State, past: seq<Step>) {
    && (forall c | 0 <= c < |s.callers| :: CallerTraced(s, past, c))
    && (forall f | 0 <= f < |s.flights| :: FlightTraced(s, past, f))
  }

  lemma PastGrows(past: seq<Step>, step: Step)
    ensures forall c: CallerId, a: Option<Outcome> ::
      Asked(past + [step], c, a) <==> Asked(past, c, a) || step == Ask(c, a) || step == AskAlone(c, a)
    ensures forall c: CallerId, o: Outcome :: Learnt(past, c, o) ==> Learnt(past + [step], c, o)
    ensures forall o: Outcome | step == Ask(step.c, Some(o)) :: Learnt(past + [step], step.c, o)
    ensures step == Ask(step.c, None) ==> Learnt(past + [step], step.c, NotFound("crt.sh lookup failed", true))
  {
  }

  /** A step of somebody else changes nothing of this. */
  lemma OtherTraced(s: State, past: seq<Step>, step: Step, c: CallerId)
    requires Inv(s) && Enabled(s, step) && c < |s.callers| && c != step.c && CallerTraced(s, past, c)
    ensures c < |Next(s, step).callers| && CallerTraced(Next(s, step), past + [step], c)
  {
    var t := Next(s, step);
    NextExtends(s, step);
    PastGrows(past, step);
    hide Asked, Learnt;
    assert CallerOk(s, c);
    assert t.callers[c] == s.callers[c];
    match s.callers[c].place
    case Answered(f, _) => OtherLeader(s, step, c, f);
    case Withdrawn(f, _) => OtherLeader(s, step, c, f);
    case Returned(_, Shared(f)) => assert FlightKept(s.flights[f], t.flights[f]);
    case _ =>
  }

  /** Only its leader writes a lookup's outcome. */
  lemma OtherLeader(s: State, step: Step, c: CallerId, f: FlightId)
    requires Inv(s) && Enabled(s, step) && c != step.c && f < |s.flights| && s.flights[f].leader == c
    ensures f < |Next(s, step).flights| && Next(s, step).flights[f].outcome == s.flights[f].outcome
  {
    assert CallerOk(s, step.c);
  }

  lemma MoverTraced(s: State, past: seq<Step>, step: Step)
    requires Inv(s) && Enabled(s, step) && Traced(s, past)
    ensures CallerTraced(Next(s, step), past + [step], step.c)
  {
    var c := step.c;
    PastGrows(past, step);
    hide Asked, Learnt;
    assert CallerOk(s, c) && CallerTraced(s, past, c);
    match step
    case Ask(_, _) => assert FlightTraced(s, past, s.callers[c].place.flight);
    case Wake(_) => assert FlightTraced(s, past, s.callers[c].place.flight);
    case _ =>
  }

  lemma FlightsTraced(s: State, past: seq<Step>, step: Step, f: FlightId)
    requires Inv(s) && Enabled(s, step) && Traced(s, past) && f < |Next(s, step).flights|
    ensures FlightTraced(Next(s, step), past + [step], f)
  {
    var (c, t) := (step.c, Next(s, step));
    PastGrows(past, step);
    hide Asked, Learnt;
    NextExtends(s, step);
    assert CallerOk(s, c) && CallerTraced(s, past, c);
    if f < |s.flights| {
      assert FlightTraced(s, past, f) && FlightKept(s.flights[f], t.flights[f]) && FlightOk(s, f);
      if s.flights[f].leader != c { OtherLeader(s, step, s.flights[f].leader, f); }
    }
  }

  lemma StepKeepsTrace(s: State, past: seq<Step>, step: Step)
    requires Inv(s) && Enabled(s, step) && Traced(s, past)
    ensures Traced(Next(s, step), past + [step])
  {
    NextExtends(s, step);
    hide Inv, Enabled, CallerTraced, FlightTraced, FlightKept;
    var t := Next(s, step);
    forall c | 0 <= c < |t.callers| ensures CallerTraced(t, past + [step], c) {
      if c == step.c { MoverTraced(s, past, step); } else { OtherTraced(s, past, step, c); }
    }
    forall f | 0 <= f < |t.flights| ensures FlightTraced(t, past + [step], f) { FlightsTraced(s, past, step, f); }
  }

  lemma {:induction false} RunKeepsTrace(s: State, past: seq<Step>, steps: seq<Step>)
    requires Inv(s) && Traced(s, past) && IsRun(s, steps)
    ensures Traced(After(s, steps), past + steps)
    decreases |steps|
  {
    if steps == [] {
      assert past + steps == past;
    } else {
      hide Traced, Enabled;
      StepKeepsInv(s, steps[0]);
      StepKeepsTrace(s, past, steps[0]);
      hide Inv, Next;
      RunKeepsTrace(Next(s, steps[0]), past + [steps[0]], steps[1..]);
      assert past + steps == past + [steps[0]] + steps[1..];
    }
  }

  /** In every interleaving nothing is returned but what a request came to. Who
      asked returns its own answer, or raises what its request raised; what is
      shared is what the leader of that very lookup learnt. */
  lemma AnswersArrive(start: State, steps: seq<Step>)
    requires Initial(start) && IsRun(start, steps)
    ensures var s := After(start, steps);
      && (forall c, outcome | 0 <= c < |s.callers| && Finished(s.callers[c].place) && Asked(steps, c, Some(outcome)) ::
            s.callers[c].place == Returned(outcome, Own))
      && (forall c | 0 <= c < |s.callers| && Finished(s.callers[c].place) && Asked(steps, c, None) ::
            s.callers[c].place == Raised)
      && (forall c | 0 <= c < |s.callers| && Finished(s.callers[c].place) && NeverAsked(steps, c) ::
            ServedBy(s, steps, s.callers[c]))
  {
    assert Inv(start) && Traced(start, []);
    RunKeepsTrace(start, [], steps);
    RunKeepsInv(start, steps);
    var s := After(start, steps);
    assert [] + steps == steps;
    forall c | 0 <= c < |s.callers| && Finished(s.callers[c].place)
      ensures forall outcome: Outcome | Asked(steps, c, Some(outcome)) :: s.callers[c].place == Returned(outcome, Own)
      ensures Asked(steps, c, None) ==> s.callers[c].place == Raised
      ensures NeverAsked(steps, c) ==> ServedBy(s, steps, s.callers[c])
    {
      assert CallerTraced(s, steps, c) && CallerOk(s, c);
      Arrived(s, steps, c);
    }
  }

  lemma Arrived(s: State, steps: seq<Step>, c: CallerId)
    requires Inv(s) && c < |s.callers| && Finished(s.callers[c].place) && CallerTraced(s, steps, c) && CallerOk(s, c)
    ensures forall outcome: Outcome | Asked(steps, c, Some(outcome)) :: s.callers[c].place == Returned(outcome, Own)
    ensures Asked(steps, c, None) ==> s.callers[c].place == Raised
    ensures NeverAsked(steps, c) ==> ServedBy(s, steps, s.callers[c])
  {
    hide Asked, Learnt;
    match s.callers[c].place
    case Returned(_, Shared(f)) => assert FlightOk(s, f);
    case Returned(outcome, Own) => assert Asked(steps, c, Some(outcome));
    case Raised => assert Asked(steps, c, None);
  }

  /** Another caller of the name led the lookup, and its request came to this. */
  ghost predicate ServedBy(s: State, steps: seq<Step>, me: Caller) {
    && me.place.Returned? && me.place.source.Shared? && me.place.source.flight < |s.flights|
    && var leader := s.flights[me.place.source.flight].leader;
    && leader < |s.callers| && s.callers[leader].key == me.key && Learnt(steps, leader, me.place.outcome)
  }

  // ------------------------------------------------------- progress and an end

  predicate Finished(p: Place) {
    p.Returned? || p.Raised?
  }

  /** As long as some caller is not finished, some step is possible that does
      not rest on a wait running out: nobody waits for a lookup nobody makes. */
  lemma NeverStuck(s: State, c: CallerId)
    requires Inv(s) && c < |s.callers| && !Finished(s.callers[c].place)
    ensures exists step :: Enabled(s, step) && !step.GiveUp?
  {
    assert CallerOk(s, c);
    match s.callers[c].place
    case Start => assert Enabled(s, Enter(c));
    case Leading(_) => assert Enabled(s, Ask(c, None));
    case Answered(_, _) => assert Enabled(s, Withdraw(c));
    case Withdrawn(_, _) => assert Enabled(s, Announce(c));
    case AskingAlone => assert Enabled(s, AskAlone(c, None));
    case Waiting(f) =>
      assert FlightOk(s, f);
      var boss := s.flights[f].leader;
      if s.flights[f].done { assert Enabled(s, Wake(c)); }
      else if s.callers[boss].place.Leading? { assert Enabled(s, Ask(boss, None)); }
      else if s.callers[boss].place.Answered? { assert Enabled(s, Withdraw(boss)); }
      else { assert Enabled(s, Announce(boss)); }
  }

  /** How far a caller still is from its end, at most. */
  function Rank(me: Caller, n: nat): int {
    match me.place
    case Start => 2 * (n - |me.tried|) + 5
    case Waiting(_) => 2 * (n - |me.tried|) + 4
    case Leading(_) => 3
    case Answered(_, _) => 2
    case Withdrawn(_, _) => 1
    case AskingAlone => 1
    case _ => 0
  }

  function Total(callers: seq<Caller>, n: nat): int {
    if callers == [] then 0 else Total(callers[..|callers| - 1], n) + Rank(callers[|callers| - 1], n)
  }

  lemma {:induction false} TotalUpdate(callers: seq<Caller>, n: nat, c: nat, me: Caller)
    requires c < |callers|
    ensures Total(callers[c := me], n) == Total(callers, n) - Rank(callers[c], n) + Rank(me, n)
    decreases |callers|
  {
    var (init, changed) := (callers[..|callers| - 1], callers[c := me]);
    if c < |callers| - 1 {
      TotalUpdate(init, n, c, me);
      assert changed[..|callers| - 1] == init[c := me];
    } else {
      assert changed[..|callers| - 1] == init;
    }
  }

  lemma {:induction false} TotalNonNegative(callers: seq<Caller>, n: nat)
    requires forall c | 0 <= c < |callers| :: |callers[c].tried| <= n
    ensures Total(callers, n) >= 0
    decreases |callers|
  {
    if callers != [] { TotalNonNegative(callers[..|callers| - 1], n); }
  }

  lemma StepCountsDown(s: State, step: Step)
    requires Inv(s) && Enabled(s, step)
    ensures 0 <= Total(Next(s, step).callers, |s.callers|) < Total(s.callers, |s.callers|)
  {
    var (c, t, n) := (step.c, Next(s, step), |s.callers|);
    hide Inv;
    StepKeepsInv(s, step);
    MoverRanksDown(s, step);
    hide Next, Enabled, Rank, Total;
    forall d | 0 <= d < n ensures |t.callers[d].tried| <= n { RoundsBounded(t, d); }
    TotalNonNegative(t.callers, n);
    TotalUpdate(s.callers, n, c, t.callers[c]);
  }

  lemma MoverRanksDown(s: State, step: Step)
    requires Inv(s) && Enabled(s, step)
    ensures var (c, t) := (step.c, Next(s, step));
      && c < |t.callers| == |s.callers| && t.callers == s.callers[c := t.callers[c]]
      && Rank(t.callers[c], |s.callers|) < Rank(s.callers[c], |s.callers|)
  {
    RoundsBounded(s, step.c);
  }

  lemma {:induction false} RunCountsDown(s: State, steps: seq<Step>)
    requires Inv(s) && IsRun(s, steps)
    ensures |steps| <= Total(s.callers, |s.callers|)
    decreases |steps|
  {
    if steps == [] {
      forall d | 0 <= d < |s.callers| ensures |s.callers[d].tried| <= |s.callers| { RoundsBounded(s, d); }
      TotalNonNegative(s.callers, |s.callers|);
    } else {
      StepCountsDown(s, steps[0]);
      StepKeepsInv(s, steps[0]);
      RunCountsDown(Next(s, steps[0]), steps[1..]);
    }
  }

  lemma {:induction false} TotalAtStart(callers: seq<Caller>, n: nat)
    requires forall c | 0 <= c < |callers| :: callers[c].place == Start && callers[c].tried == []
    ensures Total(callers, n) == |callers| * (2 * n + 5)
    decreases |callers|
  {
    if callers != [] {
      TotalAtStart(callers[..|callers| - 1], n);
      assert (|callers| - 1) * (2 * n + 5) + (2 * n + 5) == |callers| * (2 * n + 5);
    }
  }

  /** Every interleaving of n callers ends, after at most n * (2n + 5) steps,
      whatever the requests come to and whichever waits run out. */
  lemma EveryRunEnds(start: State, steps: seq<Step>)
    requires Initial(start) && IsRun(start, steps)
    ensures |steps| <= |start.callers| * (2 * |start.callers| + 5)
  {
    assert Inv(start);
    RunCountsDown(start, steps);
    TotalAtStart(start.callers, |start.callers|);
  }
}
