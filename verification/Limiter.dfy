/** The per-session command limiter: a sliding log of accepted commands. */
module Limiter {
  // Times are in nanoseconds, and a run is any sequence of calls on a clock that never goes back.

  import opened Base

  /** `now.duration_since(t)`, which saturates at zero. */
  function Elapsed(now: int, t: int): nat {
    if now >= t then now - t else 0
  }

  function DropOld(window: seq<int>, now: int): seq<int> {
    if window != [] && Elapsed(now, window[0]) > SECOND then DropOld(window[1..], now) else window
  }

  /** One call: the window it leaves and whether the command may run. */
  function Admit(window: seq<int>, burst: nat, now: int): (seq<int>, bool) {
    var kept := DropOld(window, now);
    if |kept| >= burst then (kept, false) else (kept + [now], true)
  }

  class Session {
    const burst: nat
    var commandWindow: seq<int>

    constructor (burst: nat)
      ensures this.burst == burst && commandWindow == []
    {
      this.burst := burst;
      commandWindow := [];
    }

    method EnforceRateLimit(now: int) returns (ok: bool)
      modifies this
      ensures (commandWindow, ok) == Admit(old(commandWindow), burst, now)
    {
      while commandWindow != [] && Elapsed(now, commandWindow[0]) > SECOND
        invariant DropOld(commandWindow, now) == DropOld(old(commandWindow), now)
        decreases |commandWindow|
      {
        commandWindow := commandWindow[1..];
      }
      if |commandWindow| >= burst {
        return false;
      }
      commandWindow := commandWindow + [now];
      ok := true;
    }
  }

  // Runs

  /** The window, every accepted time, and the decision on every call so far. */
  datatype History = History(window: seq<int>, accepted: seq<int>, decisions: seq<bool>)

  function After(burst: nat, times: seq<int>): (h: History)
    ensures |h.decisions| == |times|
    decreases |times|
  {
    if times == [] then History([], [], [])
    else
      var h, now := After(burst, times[..|times| - 1]), times[|times| - 1];
      var (window, ok) := Admit(h.window, burst, now);
      History(window, if ok then h.accepted + [now] else h.accepted, h.decisions + [ok])
  }

  ghost predicate Monotone(times: seq<int>) {
    forall i, j | 0 <= i <= j < |times| :: times[i] <= times[j]
  }

  /** The entries no older than `lo`, in order. */
  function From(s: seq<int>, lo: int): seq<int>
    decreases |s|
  {
    if s == [] then []
    else
      var last := s[|s| - 1];
      From(s[..|s| - 1], lo) + (if last >= lo then [last] else [])
  }

  /** The entries in the closed interval. */
  function Within(s: seq<int>, lo: int, hi: int): seq<int>
    decreases |s|
  {
    if s == [] then []
    else
      var last := s[|s| - 1];
      Within(s[..|s| - 1], lo, hi) + (if lo <= last <= hi then [last] else [])
  }

  lemma FromSnoc(s: seq<int>, x: int, lo: int)
    ensures From(s + [x], lo) == From(s, lo) + (if x >= lo then [x] else [])
  {
    assert (s + [x])[..|s|] == s;
  }

  lemma WithinSnoc(s: seq<int>, x: int, lo: int, hi: int)
    ensures Within(s + [x], lo, hi) == Within(s, lo, hi) + (if lo <= x <= hi then [x] else [])
  {
    assert (s + [x])[..|s|] == s;
  }

  lemma {:induction false} FromAll(s: seq<int>, lo: int)
    requires forall i | 0 <= i < |s| :: s[i] >= lo
    ensures From(s, lo) == s
    decreases |s|
  {
    if s != [] {
      FromAll(s[..|s| - 1], lo);
      assert s == s[..|s| - 1] + [s[|s| - 1]];
    }
  }

  lemma {:induction false} FromFrom(s: seq<int>, lo: int, later: int)
    requires lo <= later
    ensures From(From(s, lo), later) == From(s, later)
    decreases |s|
  {
    if s != [] {
      var init, last := s[..|s| - 1], s[|s| - 1];
      FromFrom(init, lo, later);
      if last >= lo {
        FromSnoc(From(init, lo), last, later);
      } else {
        assert From(init, lo) + [] == From(init, lo);
        assert From(init, later) + [] == From(init, later);
      }
    }
  }

  lemma {:induction false} FromDropsFirst(s: seq<int>, lo: int)
    requires s != [] && s[0] < lo
    ensures From(s, lo) == From(s[1..], lo)
    decreases |s|
  {
    if |s| > 1 {
      var init := s[..|s| - 1];
      FromDropsFirst(init, lo);
      assert s[1..][..|s| - 2] == init[1..];
    }
  }

  /** Popping expired entries off the front of an ordered window filters it. */
  lemma {:induction false} DropOldFilters(window: seq<int>, now: int)
    requires Monotone(window) && forall i | 0 <= i < |window| :: window[i] <= now
    ensures DropOld(window, now) == From(window, now - SECOND)
    decreases |window|
  {
    if window != [] {
      if window[0] < now - SECOND {
        DropOldFilters(window[1..], now);
        FromDropsFirst(window, now - SECOND);
      } else {
        FromAll(window, now - SECOND);
      }
    }
  }

  lemma {:induction false} FromKeepsOrder(s: seq<int>, lo: int, now: int)
    requires Monotone(s) && forall i | 0 <= i < |s| :: s[i] <= now
    ensures Monotone(From(s, lo))
    ensures forall i | 0 <= i < |From(s, lo)| :: From(s, lo)[i] <= now
    decreases |s|
  {
    if s != [] {
      FromKeepsOrder(s[..|s| - 1], lo, s[|s| - 1]);
    }
  }

  ghost predicate Exact(h: History, now: int) {
    && Monotone(h.accepted)
    && (forall i | 0 <= i < |h.accepted| :: h.accepted[i] <= now)
    && h.window == From(h.accepted, now - SECOND)
  }

  lemma NowKeepsOrder(s: seq<int>, now: int)
    requires Monotone(s) && forall i | 0 <= i < |s| :: s[i] <= now
    ensures Monotone(s + [now])
    ensures forall i | 0 <= i < |s + [now]| :: (s + [now])[i] <= now
  {
  }

  /** Dropping from a window that was exact leaves it exact at the later time. */
  lemma DropOldExact(h: History, before: int, now: int)
    requires Exact(h, before) && before <= now
    ensures DropOld(h.window, now) == From(h.accepted, now - SECOND)
  {
    FromKeepsOrder(h.accepted, before - SECOND, before);
    DropOldFilters(h.window, now);
    FromFrom(h.accepted, before - SECOND, now - SECOND);
  }

  lemma OneCallExact(burst: nat, h: History, before: int, now: int)
    requires Exact(h, before) && before <= now
    ensures var (window, ok) := Admit(h.window, burst, now);
            && ok == (|From(h.accepted, now - SECOND)| < burst)
            && Exact(History(window, if ok then h.accepted + [now] else h.accepted, []), now)
  {
    DropOldExact(h, before, now);
    FromSnoc(h.accepted, now, now - SECOND);
    NowKeepsOrder(h.accepted, now);
    hide DropOld, From, Monotone;
  }

  /** After every call of a monotone run, the window is exactly the accepted commands of the
      last closed second, in order. */
  lemma {:induction false} WindowExact(burst: nat, times: seq<int>)
    requires Monotone(times) && times != []
    ensures Exact(After(burst, times), times[|times| - 1])
    decreases |times|
  {
    var init, now := times[..|times| - 1], times[|times| - 1];
    if init == [] {
      OneCallExact(burst, After(burst, init), now, now);
    } else {
      WindowExact(burst, init);
      OneCallExact(burst, After(burst, init), init[|init| - 1], now);
    }
  }

  /** The k-th call is refused if and only if `burst` commands were already accepted in the
      closed second before it. */
  lemma RefusedIffBurst(burst: nat, times: seq<int>, k: nat)
    requires Monotone(times) && k < |times|
    ensures !After(burst, times[..k + 1]).decisions[k]
       <==> |From(After(burst, times[..k]).accepted, times[k] - SECOND)| >= burst
  {
    assert times[..k + 1][..k] == times[..k];
    var h := After(burst, times[..k]);
    if k == 0 {
      OneCallExact(burst, h, times[0], times[0]);
    } else {
      WindowExact(burst, times[..k]);
      OneCallExact(burst, h, times[k - 1], times[k]);
    }
  }

  lemma {:induction false} WithinAtMostFrom(s: seq<int>, lo: int, hi: int)
    ensures |Within(s, lo, hi)| <= |From(s, lo)|
    decreases |s|
  {
    if s != [] {
      WithinAtMostFrom(s[..|s| - 1], lo, hi);
    }
  }

  lemma {:induction false} FromShrinks(s: seq<int>, lo: int, later: int)
    requires lo <= later
    ensures |From(s, later)| <= |From(s, lo)|
    decreases |s|
  {
    if s != [] {
      FromShrinks(s[..|s| - 1], lo, later);
    }
  }

  /** No closed interval of one second ever holds more than `burst` accepted commands. */
  lemma {:induction false} NoSecondExceedsBurst(burst: nat, times: seq<int>, lo: int)
    requires Monotone(times)
    ensures |Within(After(burst, times).accepted, lo, lo + SECOND)| <= burst
    decreases |times|
  {
    if times != [] {
      var init, now := times[..|times| - 1], times[|times| - 1];
      var h := After(burst, init);
      NoSecondExceedsBurst(burst, init, lo);
      RefusedIffBurst(burst, times, |init|);
      assert times[..|init| + 1] == times;
      WithinSnoc(h.accepted, now, lo, lo + SECOND);
      if lo <= now <= lo + SECOND {
        WithinAtMostFrom(h.accepted, lo, lo + SECOND);
        FromShrinks(h.accepted, now - SECOND, lo);
      }
    }
  }
}
