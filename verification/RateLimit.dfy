/** The sliding-window rate limit (app.py): one list of accepted times per
    bucket and client address. */
module RateLimit {

  type Key = (string, string)

  datatype Limits = Limits(window: int, requests: int)

  /** The times that still count at a moment. */
  function Recent(times: seq<int>, now: int, window: int): seq<int> {
    if times == [] then []
    else Recent(times[..|times| - 1], now, window)
         + if now - times[|times| - 1] < window then [times[|times| - 1]] else []
  }

  type Store = map<Key, seq<int>>

  function TimesOf(store: Store, key: Key): seq<int> {
    if key in store then store[key] else []
  }

  class Limiter {
    var store: Store

    /** Whether a call is accepted; only an accepted call is remembered. */
    method Check(key: Key, limits: Limits, now: int) returns (accepted: bool)
      modifies this
      ensures accepted <==> |Recent(old(TimesOf(store, key)), now, limits.window)| < limits.requests
      ensures store == Checked(old(store), Call(key, now), limits)
    {
      if key !in store { store := store[key := []]; }
      var times := store[key];
      var kept: seq<int> := [];
      for i := 0 to |times|
        invariant kept == Recent(times[..i], now, limits.window)
        invariant store == old(store)[key := times]
      {
        assert times[..i + 1][..i] == times[..i];
        if now - times[i] < limits.window { kept := kept + [times[i]]; }
      }
      assert times[..|times|] == times;
      store := store[key := kept];
      if |store[key]| >= limits.requests { return false; }
      store := store[key := store[key] + [now]];
      return true;
    }
  }

  // -------------------------------------------------------------------- runs

  datatype Call = Call(key: Key, now: int)

  predicate Accepts(times: seq<int>, limits: Limits, now: int) {
    |Recent(times, now, limits.window)| < limits.requests
  }

  function Checked(store: Store, c: Call, limits: Limits): Store {
    var kept := Recent(TimesOf(store, c.key), c.now, limits.window);
    store[c.key := if |kept| < limits.requests then kept + [c.now] else kept]
  }

  function After(calls: seq<Call>, limits: Limits): Store {
    if calls == [] then map[] else Checked(After(calls[..|calls| - 1], limits), calls[|calls| - 1], limits)
  }

  /** The times of the accepted calls of one key, oldest first. */
  function Accepted(calls: seq<Call>, limits: Limits, key: Key): seq<int> {
    if calls == [] then []
    else
      var (before, c) := (calls[..|calls| - 1], calls[|calls| - 1]);
      Accepted(before, limits, key)
      + if c.key == key && Accepts(TimesOf(After(before, limits), key), limits, c.now) then [c.now] else []
  }

  predicate ClockRises(calls: seq<Call>) {
    forall i, j | 0 <= i < j < |calls| :: calls[i].now <= calls[j].now
  }

  /** How many of the times lie in [from, until). */
  function Within(times: seq<int>, from: int, until: int): nat {
    if times == [] then 0
    else Within(times[..|times| - 1], from, until) + if from <= times[|times| - 1] < until then 1 else 0
  }

  lemma RecentAppended(times: seq<int>, t: int, now: int, window: int)
    ensures Recent(times + [t], now, window) == Recent(times, now, window) + if now - t < window then [t] else []
  {
    assert (times + [t])[..|times|] == times;
  }

  lemma {:induction false} RecentTwice(times: seq<int>, earlier: int, now: int, window: int)
    requires earlier <= now
    ensures Recent(Recent(times, earlier, window), now, window) == Recent(times, now, window)
    decreases |times|
  {
    if times == [] { return; }
    hide Recent;
    var (before, last) := (times[..|times| - 1], times[|times| - 1]);
    assert times == before + [last];
    RecentTwice(before, earlier, now, window);
    RecentAppended(before, last, earlier, window);
    RecentAppended(before, last, now, window);
    RecentAppended(Recent(before, earlier, window), last, now, window);
    assert Recent(before, earlier, window) + [] == Recent(before, earlier, window);
    assert Recent(before, now, window) + [] == Recent(before, now, window);
  }

  /** What one more call makes of a key's times, and of its accepted calls. */
  lemma OneMore(before: seq<Call>, c: Call, limits: Limits, key: Key)
    ensures var (times, kept) := (TimesOf(After(before, limits), key),
                                  Recent(TimesOf(After(before, limits), key), c.now, limits.window));
      && TimesOf(After(before + [c], limits), key)
         == (if c.key != key then times else if Accepts(times, limits, c.now) then kept + [c.now] else kept)
      && Accepted(before + [c], limits, key)
         == Accepted(before, limits, key) + if c.key == key && Accepts(times, limits, c.now) then [c.now] else []
  {
    hide Recent;
    assert (before + [c])[..|before|] == before;
  }

  /** Dropping old times forgets nothing that could still count: at any later
      moment the store and the full list of accepted calls agree. */
  lemma {:induction false} StoreIsAccepted(calls: seq<Call>, limits: Limits, key: Key, now: int)
    requires ClockRises(calls) && (calls != [] ==> calls[|calls| - 1].now <= now)
    ensures Recent(TimesOf(After(calls, limits), key), now, limits.window)
         == Recent(Accepted(calls, limits, key), now, limits.window)
    decreases |calls|
  {
    if calls == [] { return; }
    hide After, Accepted, Recent;
    var (before, c) := (calls[..|calls| - 1], calls[|calls| - 1]);
    assert calls == before + [c];
    StoreIsAccepted(before, limits, key, now);
    OneMore(before, c, limits, key);
    var times := TimesOf(After(before, limits), key);
    RecentTwice(times, c.now, now, limits.window);
    RecentAppended(Recent(times, c.now, limits.window), c.now, now, limits.window);
    RecentAppended(Accepted(before, limits, key), c.now, now, limits.window);
    assert Accepted(before, limits, key) + [] == Accepted(before, limits, key);
  }

  lemma {:induction false} RecentCounts(times: seq<int>, now: int, window: int)
    requires forall i | 0 <= i < |times| :: times[i] <= now
    ensures |Recent(times, now, window)| == Within(times, now - window + 1, now + 1)
    decreases |times|
  {
    if times != [] { RecentCounts(times[..|times| - 1], now, window); }
  }

  lemma {:induction false} AcceptedBy(calls: seq<Call>, limits: Limits, key: Key, now: int)
    requires ClockRises(calls) && (calls != [] ==> calls[|calls| - 1].now <= now)
    ensures forall i | 0 <= i < |Accepted(calls, limits, key)| :: Accepted(calls, limits, key)[i] <= now
    decreases |calls|
  {
    if calls != [] { AcceptedBy(calls[..|calls| - 1], limits, key, now); }
  }

  /** A call is refused exactly when the maximum was already accepted within
      the window up to it. */
  lemma RefusedIff(calls: seq<Call>, limits: Limits, key: Key, now: int)
    requires ClockRises(calls) && (calls != [] ==> calls[|calls| - 1].now <= now)
    ensures Accepts(TimesOf(After(calls, limits), key), limits, now)
       <==> Within(Accepted(calls, limits, key), now - limits.window + 1, now + 1) < limits.requests
  {
    hide After, Accepted, Recent, Within;
    StoreIsAccepted(calls, limits, key, now);
    AcceptedBy(calls, limits, key, now);
    RecentCounts(Accepted(calls, limits, key), now, limits.window);
  }

  lemma {:induction false} WithinNarrower(times: seq<int>, from: int, until: int, from2: int, until2: int)
    requires from2 <= from && until <= until2
    ensures Within(times, from, until) <= Within(times, from2, until2)
    decreases |times|
  {
    if times != [] { WithinNarrower(times[..|times| - 1], from, until, from2, until2); }
  }

  lemma {:induction false} WithinBefore(times: seq<int>, from: int, until: int, cut: int)
    requires forall i | 0 <= i < |times| :: times[i] < cut
    ensures Within(times, from, until) == Within(times, from, if until < cut then until else cut)
    decreases |times|
  {
    if times != [] { WithinBefore(times[..|times| - 1], from, until, cut); }
  }

  /** Any window of the set length holds at most the maximum of accepted calls
      of one key, wherever it starts. */
  lemma {:induction false} WindowBound(calls: seq<Call>, limits: Limits, key: Key, from: int)
    requires ClockRises(calls)
    ensures Within(Accepted(calls, limits, key), from, from + limits.window)
         <= if limits.requests < 0 then 0 else limits.requests
    decreases |calls|
  {
    if calls == [] { return; }
    hide After, Accepted, Recent, Within;
    var (before, c) := (calls[..|calls| - 1], calls[|calls| - 1]);
    assert calls == before + [c];
    var was := Accepted(before, limits, key);
    WindowBound(before, limits, key, from);
    OneMore(before, c, limits, key);
    WithinAppended(was, c.now, from, from + limits.window);
    if c.key == key && Accepts(TimesOf(After(before, limits), key), limits, c.now) {
      RefusedIff(before, limits, key, c.now);
      AcceptedBy(before, limits, key, c.now);
      if from <= c.now < from + limits.window {
        WithinBefore(was, from, from + limits.window, c.now + 1);
        WithinNarrower(was, from, c.now + 1, c.now - limits.window + 1, c.now + 1);
      }
    } else {
      assert was + [] == was;
    }
  }

  lemma WithinAppended(times: seq<int>, t: int, from: int, until: int)
    ensures Within(times + [t], from, until) == Within(times, from, until) + if from <= t < until then 1 else 0
  {
    assert (times + [t])[..|times|] == times;
  }

  // ------------------------------------------------ refused calls, other keys

  /** The calls of one key. */
  function OfKey(calls: seq<Call>, key: Key): seq<Call> {
    if calls == [] then []
    else OfKey(calls[..|calls| - 1], key) + if calls[|calls| - 1].key == key then [calls[|calls| - 1]] else []
  }

  /** What other keys do makes no difference: the same calls are accepted, and
      the same times stored, as if only this key had called. */
  lemma {:induction false} KeysApart(calls: seq<Call>, limits: Limits, key: Key)
    ensures Accepted(calls, limits, key) == Accepted(OfKey(calls, key), limits, key)
    ensures TimesOf(After(calls, limits), key) == TimesOf(After(OfKey(calls, key), limits), key)
    decreases |calls|
  {
    if calls == [] { return; }
    hide After, Accepted, Recent, TimesOf;
    var (before, c) := (calls[..|calls| - 1], calls[|calls| - 1]);
    assert calls == before + [c];
    KeysApart(before, limits, key);
    OneMore(before, c, limits, key);
    OneMore(OfKey(before, key), c, limits, key);
    assert OfKey(before, key) + [] == OfKey(before, key);
  }

  /** A refused call postpones nothing: whatever follows is accepted or
      refused as if it had never been made. */
  lemma {:induction false} RefusedLeavesNoTrace(calls: seq<Call>, refused: Call, more: seq<Call>, limits: Limits,
                                                key: Key)
    requires ClockRises(calls + [refused] + more)
    requires !Accepts(TimesOf(After(calls, limits), refused.key), limits, refused.now)
    ensures Accepted(calls + [refused] + more, limits, key) == Accepted(calls + more, limits, key)
    decreases |more|
  {
    hide After, Accepted, Recent, TimesOf;
    if more == [] {
      OneMore(calls, refused, limits, key);
      assert calls + [refused] + more == calls + [refused] && calls + more == calls;
      assert Accepted(calls, limits, key) + [] == Accepted(calls, limits, key);
    } else {
      var (rest, c) := (more[..|more| - 1], more[|more| - 1]);
      var (with, without) := (calls + [refused] + rest, calls + rest);
      assert with + [c] == calls + [refused] + more && without + [c] == calls + more;
      RisesPrefix(with, c);
      RefusedLeavesNoTrace(calls, refused, rest, limits, key);
      Subrun(calls, refused, rest);
      OneMore(with, c, limits, key);
      OneMore(without, c, limits, key);
      StoreIsAccepted(with, limits, key, c.now);
      LastBefore(without, with, c);
      StoreIsAccepted(without, limits, key, c.now);
    }
  }

  lemma RisesPrefix(run: seq<Call>, c: Call)
    requires ClockRises(run + [c])
    ensures ClockRises(run) && forall i | 0 <= i < |run| :: run[i].now <= c.now
  {
    var all := run + [c];
    forall i, j | 0 <= i < j < |run| ensures run[i].now <= run[j].now { assert all[i].now <= all[j].now; }
    forall i | 0 <= i < |run| ensures run[i].now <= c.now { assert all[i].now <= all[|run|].now; }
  }

  lemma LastBefore(part: seq<Call>, run: seq<Call>, c: Call)
    requires (forall i | 0 <= i < |run| :: run[i].now <= c.now) && forall x | x in part :: x in run
    ensures part != [] ==> part[|part| - 1].now <= c.now
  {
    if part != [] { assert part[|part| - 1] in run; }
  }

  lemma Subrun(calls: seq<Call>, refused: Call, rest: seq<Call>)
    requires ClockRises(calls + [refused] + rest)
    ensures ClockRises(calls + rest)
  {
    var all := calls + [refused] + rest;
    forall i, j | 0 <= i < j < |calls + rest| ensures (calls + rest)[i].now <= (calls + rest)[j].now {
      var (a, b) := (if i < |calls| then i else i + 1, if j < |calls| then j else j + 1);
      assert all[a].now <= all[b].now;
    }
  }
}
