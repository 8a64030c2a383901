/** The account lockout (auth.py, and the second factor's use of it in app.py).

    Wrong passwords and wrong codes feed one counter; at the limit the account
    is locked for a while and the counter starts over. A right password or
    code clears both. */
module Lockout {
  import opened Common

  datatype Config = Config(maxFailedAttempts: int, lockout: int)

  /** What is stored with the user. */
  datatype Counter = Counter(failedLogins: nat, lockedUntil: Option<int>)

  predicate IsLocked(c: Counter, now: int) {
    c.lockedUntil.Some? && c.lockedUntil.value > now
  }

  /** A wrong password or code that was looked at. */
  function Failed(cfg: Config, c: Counter, now: int): Counter {
    var attempts := c.failedLogins + 1;
    if attempts >= cfg.maxFailedAttempts then Counter(0, Some(now + cfg.lockout)) else c.(failedLogins := attempts)
  }

  const CLEARED := Counter(0, None)

  datatype Outcome = Refused | Wrong(nowLocked: bool) | Accepted

  class User {
    var failedLogins: nat
    var lockedUntil: Option<int>

    function Stored(): Counter
      reads this
    {
      Counter(failedLogins, lockedUntil)
    }

    /** Count a failed attempt; lock the account at the threshold. */
    method RegisterFailure(cfg: Config, now: int) returns (locked: bool)
      modifies this
      ensures Stored() == Failed(cfg, old(Stored()), now)
      ensures locked <==> old(failedLogins) + 1 >= cfg.maxFailedAttempts
      ensures locked ==> lockedUntil == Some(now + cfg.lockout) && failedLogins == 0
      ensures !locked ==> failedLogins == old(failedLogins) + 1 && lockedUntil == old(lockedUntil)
    {
      var attempts := failedLogins + 1;
      locked := attempts >= cfg.maxFailedAttempts;
      if locked {
        lockedUntil := Some(now + cfg.lockout);
        failedLogins := 0;
      } else {
        failedLogins := attempts;
      }
    }

    method ClearLoginFailures()
      modifies this
      ensures Stored() == CLEARED && failedLogins == 0 && lockedUntil == None
    {
      failedLogins, lockedUntil := 0, None;
    }

    /** An administrator sets a new password: that clears both as well, locked
        or not. */
    method ResetPassword()
      modifies this
      ensures Stored() == CLEARED && failedLogins == 0 && lockedUntil == None
    {
      failedLogins, lockedUntil := 0, None;
    }

    /** A password, or a code for the second factor: neither is looked at
        while the account is locked. */
    method Attempt(cfg: Config, now: int, right: bool) returns (outcome: Outcome)
      modifies this
      ensures Stored() == Step(cfg, old(Stored()), Tried(now, right))
      ensures outcome.Refused? <==> old(lockedUntil).Some? && now < old(lockedUntil).value
      ensures outcome.Accepted? <==> right && !outcome.Refused?
      ensures outcome.Refused? ==> Stored() == old(Stored())
      ensures outcome.Accepted? ==> failedLogins == 0 && lockedUntil == None
    {
      if IsLocked(Stored(), now) { return Refused; }
      if !right {
        var locked := RegisterFailure(cfg, now);
        return Wrong(locked);
      }
      ClearLoginFailures();
      return Accepted;
    }
  }

  // ------------------------------------------------------------------- runs

  datatype Event = Tried(now: int, right: bool) | Reset(now: int)

  function Step(cfg: Config, c: Counter, e: Event): Counter {
    match e
    case Tried(now, right) => if IsLocked(c, now) then c else if right then CLEARED else Failed(cfg, c, now)
    case Reset(_) => CLEARED
  }

  function After(cfg: Config, c: Counter, events: seq<Event>): Counter
    decreases |events|
  {
    if events == [] then c else After(cfg, Step(cfg, c, events[0]), events[1..])
  }

  predicate ClockRises(events: seq<Event>) {
    forall i, j | 0 <= i < j < |events| :: events[i].now <= events[j].now
  }

  /** How many attempts with this outcome were looked at from one moment
      until before another. */
  function Seen(cfg: Config, c: Counter, events: seq<Event>, right: bool, from: int, until: int): nat
    decreases |events|
  {
    if events == [] then 0
    else
      var e := events[0];
      (if e.Tried? && !IsLocked(c, e.now) && e.right == right && from <= e.now < until then 1 else 0)
      + Seen(cfg, Step(cfg, c, e), events[1..], right, from, until)
  }

  /** How many resets there were in that time. */
  function Resets(events: seq<Event>, from: int, until: int): nat {
    if events == [] then 0
    else (if events[0].Reset? && from <= events[0].now < until then 1 else 0) + Resets(events[1..], from, until)
  }

  function Most(cfg: Config): (m: nat)
    ensures m >= 1
  {
    if cfg.maxFailedAttempts < 1 then 1 else cfg.maxFailedAttempts
  }

  /** What the streak under way may still hold before a moment: nothing while
      the lock outlasts it. */
  function Remaining(cfg: Config, c: Counter, until: int): (n: nat)
    ensures n <= Most(cfg)
  {
    if IsLocked(c, until - 1) then 0 else if c.failedLogins + 1 >= Most(cfg) then 1 else Most(cfg) - c.failedLogins
  }

  lemma {:induction false} NothingAfterwards(cfg: Config, c: Counter, events: seq<Event>, right: bool, from: int,
                                             until: int)
    requires ClockRises(events) && (events != [] ==> events[0].now >= until)
    ensures Seen(cfg, c, events, right, from, until) == 0
    decreases |events|
  {
    if events != [] { NothingAfterwards(cfg, Step(cfg, c, events[0]), events[1..], right, from, until); }
  }

  /** What the streaks ended by right attempts and by resets may hold. */
  function Streaks(cfg: Config, rights: nat, resets: nat): nat {
    (Most(cfg) - 1) * rights + Most(cfg) * resets
  }

  lemma OneStreakMore(cfg: Config, rights: nat, resets: nat)
    ensures Streaks(cfg, rights + 1, resets) == Streaks(cfg, rights, resets) + Most(cfg) - 1
    ensures Streaks(cfg, rights, resets + 1) == Streaks(cfg, rights, resets) + Most(cfg)
    ensures Streaks(cfg, 0, 0) == 0
  {
  }

  lemma {:induction false} WithinWindow(cfg: Config, c: Counter, events: seq<Event>, from: int, until: int)
    requires ClockRises(events) && until - from <= cfg.lockout && (events != [] ==> from <= events[0].now)
    ensures Seen(cfg, c, events, false, from, until)
         <= Remaining(cfg, c, until)
              + Streaks(cfg, Seen(cfg, c, events, true, from, until), Resets(events, from, until))
    decreases |events|
  {
    hide Streaks;
    if events != [] {
      var (e, rest) := (events[0], events[1..]);
      var next := Step(cfg, c, e);
      if e.now >= until {
        NothingAfterwards(cfg, c, events, false, from, until);
      } else {
        WithinWindow(cfg, next, rest, from, until);
        OneStreakMore(cfg, Seen(cfg, next, rest, true, from, until), Resets(rest, from, until));
      }
    }
  }

  /** In every run with a clock that does not go back, from any stored state:
      a window no longer than the lockout holds at most the maximum of wrong
      passwords and codes that were looked at, one fewer once more for each
      right one inside it, and once more for each reset. */
  lemma {:induction false} WindowBound(cfg: Config, c: Counter, events: seq<Event>, from: int, until: int)
    requires ClockRises(events) && until - from <= cfg.lockout
    ensures Seen(cfg, c, events, false, from, until)
         <= Most(cfg) + Streaks(cfg, Seen(cfg, c, events, true, from, until), Resets(events, from, until))
    decreases |events|
  {
    hide Streaks;
    if events != [] {
      if events[0].now < from {
        WindowBound(cfg, Step(cfg, c, events[0]), events[1..], from, until);
      } else {
        WithinWindow(cfg, c, events, from, until);
      }
    }
  }

  /** The stored counter stays below the maximum. */
  lemma {:induction false} CounterBelowMaximum(cfg: Config, c: Counter, events: seq<Event>)
    requires c.failedLogins < Most(cfg)
    ensures After(cfg, c, events).failedLogins < Most(cfg)
    decreases |events|
  {
    if events != [] { CounterBelowMaximum(cfg, Step(cfg, c, events[0]), events[1..]); }
  }

  // ------------------------------------------------------- the bound is reached

  function Wrongs(n: nat, now: int): seq<Event> {
    seq(n, _ => Tried(now, false))
  }

  /** Wrong attempts in one moment, up to the maximum: all are looked at, and
      the last one locks the account for the whole of the lockout. */
  lemma {:induction false} MaximumLocks(cfg: Config, now: int, failed: nat, n: nat)
    requires failed < Most(cfg) && failed + n <= Most(cfg) && cfg.lockout > 0
    ensures Seen(cfg, Counter(failed, None), Wrongs(n, now), false, now, now + 1) == n
    ensures Seen(cfg, Counter(failed, None), Wrongs(n, now), true, now, now + 1) == 0
    ensures After(cfg, Counter(failed, None), Wrongs(n, now))
         == if failed + n == Most(cfg) then Counter(0, Some(now + cfg.lockout)) else Counter(failed + n, None)
    decreases n
  {
    if n > 0 {
      assert Wrongs(n, now)[1..] == Wrongs(n - 1, now);
      if n == 1 { assert Wrongs(0, now) == []; } else { MaximumLocks(cfg, now, failed + 1, n - 1); }
    }
  }

  lemma {:induction false} SeenParts(cfg: Config, c: Counter, a: seq<Event>, b: seq<Event>, right: bool, from: int,
                                     until: int)
    ensures Seen(cfg, c, a + b, right, from, until)
         == Seen(cfg, c, a, right, from, until) + Seen(cfg, After(cfg, c, a), b, right, from, until)
    decreases |a|
  {
    if a == [] {
      assert a + b == b;
    } else {
      assert (a + b)[1..] == a[1..] + b;
      SeenParts(cfg, Step(cfg, c, a[0]), a[1..], b, right, from, until);
    }
  }

  lemma {:induction false} ResetsParts(a: seq<Event>, b: seq<Event>, from: int, until: int)
    ensures Resets(a + b, from, until) == Resets(a, from, until) + Resets(b, from, until)
    decreases |a|
  {
    if a == [] {
      assert a + b == b;
    } else {
      assert (a + b)[1..] == a[1..] + b;
      ResetsParts(a[1..], b, from, until);
    }
  }

  lemma {:induction false} NoResets(n: nat, now: int, from: int, until: int)
    ensures Resets(Wrongs(n, now), from, until) == 0
    decreases n
  {
    if n > 0 {
      assert Wrongs(n, now)[1..] == Wrongs(n - 1, now);
      NoResets(n - 1, now, from, until);
    }
  }

  /** As many wrong attempts as can be, around so many right ones and resets,
      all in one moment. */
  function Worst(cfg: Config, now: int, rights: nat, resets: nat): seq<Event>
    decreases rights + resets
  {
    if resets > 0 then Wrongs(Most(cfg), now) + ([Reset(now)] + Worst(cfg, now, rights, resets - 1))
    else if rights > 0 then Wrongs(Most(cfg) - 1, now) + ([Tried(now, true)] + Worst(cfg, now, rights - 1, 0))
    else Wrongs(Most(cfg), now)
  }

  /** After a streak that something ended, the counter starts anew. */
  lemma StreakThen(cfg: Config, now: int, n: nat, end: Event, rest: seq<Event>)
    requires n <= Most(cfg) && cfg.lockout > 0 && end.now == now && (end.Tried? ==> end.right && n < Most(cfg))
    ensures var events := Wrongs(n, now) + ([end] + rest);
      && Seen(cfg, CLEARED, events, false, now, now + 1) == n + Seen(cfg, CLEARED, rest, false, now, now + 1)
      && Seen(cfg, CLEARED, events, true, now, now + 1)
         == (if end.Tried? then 1 else 0) + Seen(cfg, CLEARED, rest, true, now, now + 1)
      && Resets(events, now, now + 1) == (if end.Reset? then 1 else 0) + Resets(rest, now, now + 1)
  {
    MaximumLocks(cfg, now, 0, n);
    SeenParts(cfg, CLEARED, Wrongs(n, now), [end] + rest, false, now, now + 1);
    SeenParts(cfg, CLEARED, Wrongs(n, now), [end] + rest, true, now, now + 1);
    ResetsParts(Wrongs(n, now), [end] + rest, now, now + 1);
    NoResets(n, now, now, now + 1);
    assert ([end] + rest)[1..] == rest;
  }

  /** For every number of right attempts and of resets some run reaches the
      bound, even within one moment. */
  lemma {:induction false} BoundIsReached(cfg: Config, now: int, rights: nat, resets: nat)
    requires cfg.lockout > 0
    ensures var events := Worst(cfg, now, rights, resets);
      && ClockRises(events)
      && Seen(cfg, CLEARED, events, true, now, now + 1) == rights && Resets(events, now, now + 1) == resets
      && Seen(cfg, CLEARED, events, false, now, now + 1) == Most(cfg) + Streaks(cfg, rights, resets)
    decreases rights + resets
  {
    hide Streaks;
    AllAtOnce(cfg, now, rights, resets);
    if resets > 0 {
      BoundIsReached(cfg, now, rights, resets - 1);
      StreakThen(cfg, now, Most(cfg), Reset(now), Worst(cfg, now, rights, resets - 1));
      OneStreakMore(cfg, rights, resets - 1);
    } else if rights > 0 {
      BoundIsReached(cfg, now, rights - 1, 0);
      StreakThen(cfg, now, Most(cfg) - 1, Tried(now, true), Worst(cfg, now, rights - 1, 0));
      OneStreakMore(cfg, rights - 1, 0);
    } else {
      MaximumLocks(cfg, now, 0, Most(cfg));
      NoResets(Most(cfg), now, now, now + 1);
      OneStreakMore(cfg, 0, 0);
    }
  }

  lemma {:induction false} AllAtOnce(cfg: Config, now: int, rights: nat, resets: nat)
    ensures forall e | e in Worst(cfg, now, rights, resets) :: e.now == now
    decreases rights + resets
  {
    if resets > 0 {
      AllAtOnce(cfg, now, rights, resets - 1);
    } else if rights > 0 {
      AllAtOnce(cfg, now, rights - 1, 0);
    }
  }

  /** One right password is enough for a window to hold more wrong ones than
      the maximum. */
  lemma MaximumExceeded()
    ensures var (cfg, events) := (Config(3, 900), [Tried(0, false), Tried(1, false), Tried(2, true),
                                                   Tried(3, false), Tried(4, false), Tried(5, false)]);
      ClockRises(events) && Most(cfg) == 3 && Seen(cfg, CLEARED, events, false, 0, 900) == 5
  {
    var cfg := Config(3, 900);
    var last := [Tried(5, false)];
    var events := [Tried(0, false), Tried(1, false), Tried(2, true), Tried(3, false), Tried(4, false), Tried(5, false)];
    assert events[1..][1..][1..][1..][1..] == last;
    assert Seen(cfg, Counter(2, None), last, false, 0, 900) == 1;
    assert Seen(cfg, CLEARED, events[1..][1..][1..], false, 0, 900) == 3;
  }
}
