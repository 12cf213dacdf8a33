/** What the listing limiter guarantees over any interval. */
module Listings {
  // The limiter counts per restartable window. On any clock windows open more than thirty seconds
  // apart and hold three listings each. On a clock that never goes back, that leaves a closed
  // interval of k times thirty seconds at most 3k + 2 listings, and 3k exactly when no window is
  // open that can still fill up inside it.

  import opened Base
  import opened World
  import Limiter

  predicate Attempts(e: Event, seller: Id) {
    e.CreateListing? && e.seller == seller
  }

  /** The clock goes back by no more than `skew` between one seller's attempts. */
  ghost predicate ClockSkew(es: seq<Event>, seller: Id, skew: nat) {
    forall i, j | 0 <= i <= j < |es| && Attempts(es[i], seller) && Attempts(es[j], seller) ::
      es[i].now <= es[j].now + skew
  }

  /** The clock never goes back between one seller's attempts. */
  ghost predicate ClockForward(es: seq<Event>, seller: Id) {
    ClockSkew(es, seller, 0)
  }

  /** Every run has some skew. */
  lemma {:induction false} SomeSkew(es: seq<Event>, seller: Id) returns (skew: nat)
    ensures ClockSkew(es, seller, skew)
    decreases |es|
  {
    if es == [] {
      skew := 0;
    } else {
      var init, last := es[..|es| - 1], es[|es| - 1];
      skew := SomeSkew(init, seller);
      if Attempts(last, seller) {
        var latest := LatestReading(init, seller);
        skew := Max(skew, latest - last.now);
      }
    }
  }

  lemma {:induction false} LatestReading(es: seq<Event>, seller: Id) returns (latest: int)
    ensures forall i | 0 <= i < |es| && Attempts(es[i], seller) :: es[i].now <= latest
    decreases |es|
  {
    if es == [] {
      latest := 0;
    } else {
      latest := LatestReading(es[..|es| - 1], seller);
      if Attempts(es[|es| - 1], seller) {
        latest := Max(latest, es[|es| - 1].now);
      }
    }
  }

  /** All of one seller's attempts between two calls fall in a closed interval. */
  ghost predicate ClockWithin(es: seq<Event>, seller: Id, n: nat, m: nat, lo: int, hi: int)
    requires n <= m <= |es|
  {
    forall i | n <= i < m && Attempts(es[i], seller) :: lo <= es[i].now <= hi
  }

  predicate Lists(w: World, e: Event, seller: Id) {
    Attempts(e, seller) && Step(w, e).1 == Listed
  }

  /** When a seller's listings were made, in order. */
  ghost function Times(ws: seq<World>, es: seq<Event>, seller: Id, n: nat): seq<int>
    requires |ws| == |es| + 1 && n <= |es|
  {
    if n == 0 then []
    else Times(ws, es, seller, n - 1) + (if Lists(ws[n - 1], es[n - 1], seller) then [es[n - 1].now] else [])
  }

  // The seller's window

  function Window(w: World, seller: Id): Option<(int, nat)> {
    if seller in w.listingWindows then Some(w.listingWindows[seller]) else None
  }

  /** Windows belong to players and hold between one and three listings. */
  ghost predicate WindowsOk(w: World) {
    forall id | id in w.listingWindows :: id in w.players && 1 <= w.listingWindows[id].1 <= 3
  }

  /** What an attempt does to windows: a listing opens one or joins one, a refusal keeps all. */
  lemma AttemptEffect(w: World, e: Event)
    requires e.CreateListing? && WindowsOk(w)
    ensures var (w', r) := MarketStep(w, e);
            var (start, count) := CurrentWindow(w, e.seller, e.now);
            && (r == Listed ==> count < 3 && e.seller in w.players)
            && (r == Listed ==> w'.listingWindows == w.listingWindows[e.seller := (start, count + 1)])
            && (r != Listed ==> w'.listingWindows == w.listingWindows)
  {
    hide Grows, SameArena, SameSwitches, OnlyPlayers;
    var (start, count) := CurrentWindow(w, e.seller, e.now);
    assert e.seller in w.listingWindows && count > 0 ==>
      w.listingWindows[e.seller := (start, count)] == w.listingWindows;
  }

  lemma OtherEffect(w: World, e: Event)
    requires !e.CreateListing?
    ensures Step(w, e).0.listingWindows == w.listingWindows
  {
    hide AccountStep, DuelStep, NpcStep, ModeStep, Grows, SameArena, SameSwitches, Tax, AddToWallet;
  }

  lemma StepKeepsWindows(w: World, e: Event)
    requires WindowsOk(w)
    ensures WindowsOk(Step(w, e).0)
  {
    hide AccountStep, MarketStep, DuelStep, NpcStep, ModeStep, SameArena, SameMarket, SameSwitches, IdsIssued;
    if e.CreateListing? {
      AttemptEffect(w, e);
    } else {
      OtherEffect(w, e);
    }
  }

  lemma {:induction false} RunWindowsOk(ws: seq<World>, es: seq<Event>, n: nat)
    requires IsRun(ws, es) && n <= |es|
    ensures WindowsOk(ws[n])
  {
    if n > 0 {
      hide Step, Enabled, WindowsOk;
      RunWindowsOk(ws, es, n - 1);
      assert Follows(ws, es, n - 1);
      StepKeepsWindows(ws[n - 1], es[n - 1]);
    }
  }

  /** What one call means for one seller: nothing, one more in the same window, or a new window
      past the old one's end. */
  lemma WindowStep(w: World, e: Event, seller: Id)
    requires WindowsOk(w)
    ensures var before, after := Window(w, seller), Window(Step(w, e).0, seller);
            if !Lists(w, e, seller) then after == before
            else
              || (before.Some? && before.value.1 < 3 && e.now <= before.value.0 + WINDOW
                  && after == Some((before.value.0, before.value.1 + 1)))
              || ((before.Some? ==> e.now > before.value.0 + WINDOW) && after == Some((e.now, 1)))
  {
    hide AccountStep, MarketStep, DuelStep, NpcStep, ModeStep, Grows, SameArena, SameMarket, SameSwitches;
    if e.CreateListing? {
      AttemptEffect(w, e);
    } else {
      OtherEffect(w, e);
    }
  }

  // Windows are spaced, on any clock

  /** How many listings the window that is open now may still take at `lo` or later. */
  function Spare(w: World, seller: Id, lo: int): int {
    var open := Window(w, seller);
    if open.Some? && lo <= open.value.0 + WINDOW then 3 - open.value.1 else 0
  }

  /** The earliest that the next window can open, at `lo` or later. */
  function NextOpening(w: World, seller: Id, lo: int): int {
    var open := Window(w, seller);
    if open.Some? then Max(lo, open.value.0 + WINDOW + 1) else lo
  }

  /** What is known after `windows` windows have opened and `made` listings been made. */
  ghost predicate SpacedOut(w: World, w': World, seller: Id, lo: int, hi: int, windows: nat, made: int) {
    var open, open' := Window(w, seller), Window(w', seller);
    if windows == 0 then
      && (open.None? ==> open'.None? && made == 0)
      && (open.Some? ==> open'.Some? && open'.value.0 == open.value.0 && made == open'.value.1 - open.value.1)
      && made <= Spare(w, seller, lo)
    else
      && open'.Some?
      && NextOpening(w, seller, lo) + (windows - 1) * (WINDOW + 1) <= open'.value.0 <= hi
      && made <= Spare(w, seller, lo) + 3 * (windows - 1) + open'.value.1
  }

  lemma SpacedStep(w: World, w0: World, e: Event, seller: Id, lo: int, hi: int, windows: nat, made: int)
      returns (later: nat)
    requires WindowsOk(w) && WindowsOk(w0) && SpacedOut(w, w0, seller, lo, hi, windows, made)
    requires Attempts(e, seller) ==> lo <= e.now <= hi
    ensures SpacedOut(w, Step(w0, e).0, seller, lo, hi, later, made + (if Lists(w0, e, seller) then 1 else 0))
  {
    hide Step, Lists;
    WindowStep(w0, e, seller);
    later := windows;
    if Lists(w0, e, seller) {
      assert Attempts(e, seller) by { ListsAttempts(w0, e, seller); }
      var open, after := Window(w0, seller), Window(Step(w0, e).0, seller);
      if !(open.Some? && after == Some((open.value.0, open.value.1 + 1))) {
        later := windows + 1;
      }
    }
  }

  lemma ListsAttempts(w: World, e: Event, seller: Id)
    requires Lists(w, e, seller)
    ensures Attempts(e, seller)
  {
  }

  /** From any point of a run to any later one, whatever the clock does within bounds. */
  lemma {:induction false} WindowsSpaced(ws: seq<World>, es: seq<Event>, seller: Id, n: nat, m: nat, lo: int, hi: int)
      returns (windows: nat)
    requires IsRun(ws, es) && n <= m <= |es| && ClockWithin(es, seller, n, m, lo, hi)
    ensures SpacedOut(ws[n], ws[m], seller, lo, hi, windows, |Times(ws, es, seller, m)| - |Times(ws, es, seller, n)|)
    decreases m
  {
    hide Step, Enabled, Lists, WindowsOk;
    RunWindowsOk(ws, es, n);
    if m == n {
      windows := 0;
      assert SpacedOut(ws[n], ws[n], seller, lo, hi, 0, 0) by {
        NothingYet(ws[n], seller, lo, hi);
      }
    } else {
      hide SpacedOut;
      var before := WindowsSpaced(ws, es, seller, n, m - 1, lo, hi);
      assert Follows(ws, es, m - 1);
      RunWindowsOk(ws, es, m - 1);
      windows := SpacedStep(ws[n], ws[m - 1], es[m - 1], seller, lo, hi, before,
                           |Times(ws, es, seller, m - 1)| - |Times(ws, es, seller, n)|);
    }
  }

  lemma NothingYet(w: World, seller: Id, lo: int, hi: int)
    requires WindowsOk(w)
    ensures SpacedOut(w, w, seller, lo, hi, 0, 0)
  {
  }

  /** On any clock whatsoever, a seller whose attempts all read times in a closed interval makes
      at most three listings for each thirty seconds begun in it. */
  lemma AnyClockBound(ws: seq<World>, es: seq<Event>, seller: Id, lo: int, hi: int)
    requires IsRun(ws, es) && lo <= hi && ClockWithin(es, seller, 0, |es|, lo, hi)
    ensures |Times(ws, es, seller, |es|)| <= 3 * ((hi - lo) / (WINDOW + 1) + 1)
  {
    hide Step, Enabled, Lists;
    var windows := WindowsSpaced(ws, es, seller, 0, |es|, lo, hi);
    RunWindowsOk(ws, es, |es|);
    if windows > 0 {
      assert (windows - 1) * (WINDOW + 1) <= hi - lo;
    }
  }

  // Closed intervals, on a clock that never goes back

  /** The seller's listings from a time on begin with call `n`, up to the skew. */
  ghost predicate BeginsAt(es: seq<Event>, seller: Id, n: nat, from: int, skew: nat) {
    && n <= |es|
    && (forall i | 0 <= i < n && Attempts(es[i], seller) :: es[i].now < from)
    && (forall i | n <= i < |es| && Attempts(es[i], seller) :: from - skew <= es[i].now)
  }

  lemma {:induction false} EarlierTimes(ws: seq<World>, es: seq<Event>, seller: Id, n: nat, from: int)
    requires |ws| == |es| + 1 && n <= |es|
    requires forall i | 0 <= i < n && Attempts(es[i], seller) :: es[i].now < from
    ensures forall i | 0 <= i < |Times(ws, es, seller, n)| :: Times(ws, es, seller, n)[i] < from
  {
    hide Step;
    if n > 0 {
      EarlierTimes(ws, es, seller, n - 1, from);
    }
  }

  lemma {:induction false} WithinNone(s: seq<int>, lo: int, hi: int)
    requires forall i | 0 <= i < |s| :: s[i] < lo
    ensures Limiter.Within(s, lo, hi) == []
    decreases |s|
  {
    if s != [] {
      WithinNone(s[..|s| - 1], lo, hi);
    }
  }

  /** As many as the window open when the interval begins allows, and three for each window that
      can open inside it. */
  predicate AllowedBy(w: World, seller: Id, from: int, hi: int, made: int, windows: nat) {
    && made <= Spare(w, seller, from) + 3 * windows
    && (windows > 0 ==> NextOpening(w, seller, from) + (windows - 1) * (WINDOW + 1) <= hi)
  }

  ghost predicate Allowed(w: World, seller: Id, from: int, hi: int, made: int) {
    exists windows: nat :: AllowedBy(w, seller, from, hi, made, windows)
  }

  lemma SpacedAllows(w: World, w': World, seller: Id, from: int, hi: int, windows: nat, made: int)
    requires WindowsOk(w) && WindowsOk(w') && SpacedOut(w, w', seller, from, hi, windows, made)
    ensures Allowed(w, seller, from, hi, made)
  {
    assert AllowedBy(w, seller, from, hi, made, windows);
  }

  lemma {:induction false} IntervalAllowed(ws: seq<World>, es: seq<Event>, seller: Id, n: nat, m: nat,
                                           from: int, hi: int, skew: nat)
    requires IsRun(ws, es) && ClockSkew(es, seller, skew) && BeginsAt(es, seller, n, from, skew) && n <= m <= |es|
    ensures |Limiter.Within(Times(ws, es, seller, m), from, hi)|
         <= |Times(ws, es, seller, m)| - |Times(ws, es, seller, n)|
    ensures Allowed(ws[n], seller, from - skew, hi + skew, |Limiter.Within(Times(ws, es, seller, m), from, hi)|)
    decreases m
  {
    hide Step, Enabled, Allowed, SpacedOut, WindowsOk;
    RunWindowsOk(ws, es, n);
    if m == n {
      EarlierTimes(ws, es, seller, n, from);
      WithinNone(Times(ws, es, seller, n), from, hi);
      NothingYet(ws[n], seller, from - skew, hi + skew);
      SpacedAllows(ws[n], ws[n], seller, from - skew, hi + skew, 0, 0);
    } else {
      IntervalAllowed(ws, es, seller, n, m - 1, from, hi, skew);
      var before := Times(ws, es, seller, m - 1);
      if Lists(ws[m - 1], es[m - 1], seller) {
        Limiter.WithinSnoc(before, es[m - 1].now, from, hi);
        if from <= es[m - 1].now <= hi {
          var lo', hi' := from - skew, hi + skew;
          assert Attempts(es[m - 1], seller) by { ListsAttempts(ws[m - 1], es[m - 1], seller); }
          var windows := WindowsSpaced(ws, es, seller, n, m, lo', hi');
          RunWindowsOk(ws, es, m);
          var made := |Times(ws, es, seller, m)| - |Times(ws, es, seller, n)|;
          SpacedAllows(ws[n], ws[m], seller, lo', hi', windows, made);
          FewerAllowed(ws[n], seller, lo', hi', made, |Limiter.Within(Times(ws, es, seller, m), from, hi)|);
        }
      } else {
        assert before + [] == before;
      }
    }
  }

  lemma FewerAllowed(w: World, seller: Id, from: int, hi: int, made: int, fewer: int)
    requires Allowed(w, seller, from, hi, made) && fewer <= made
    ensures Allowed(w, seller, from, hi, fewer)
  {
    var windows: nat :| AllowedBy(w, seller, from, hi, made, windows);
    assert AllowedBy(w, seller, from, hi, fewer, windows);
  }

  /** A window is open that still takes a listing inside the interval, and closes early enough
      for k more to open and fill before the interval ends. */
  predicate OpenWindow(w: World, seller: Id, from: int, k: nat) {
    var open := Window(w, seller);
    open.Some? && open.value.1 < 3 && from - WINDOW <= open.value.0 <= from - k
  }

  lemma AllowedNumber(w: World, seller: Id, from: int, k: nat, made: int)
    requires WindowsOk(w) && k >= 1 && Allowed(w, seller, from, from + k * WINDOW, made)
    ensures made <= 3 * k + 2
    ensures !OpenWindow(w, seller, from, k) ==> made <= 3 * k
  {
    var hi := from + k * WINDOW;
    var windows: nat :| AllowedBy(w, seller, from, hi, made, windows);
    assert Spare(w, seller, from) <= 2;
    if windows > 0 {
      assert (windows - 1) * (WINDOW + 1) <= k * WINDOW;
      assert windows <= k;
      var open := Window(w, seller);
      if open.Some? && open.value.0 > from - k {
        assert (windows - 1) * (WINDOW + 1) < (k - 1) * (WINDOW + 1);
        assert windows <= k - 1;
      }
    }
  }

  /** What is allowed whatever windows are open. */
  lemma AllowedAnyway(w: World, seller: Id, lo: int, hi: int, made: int)
    requires WindowsOk(w) && lo <= hi && Allowed(w, seller, lo, hi, made)
    ensures made <= 3 * ((hi - lo) / (WINDOW + 1) + 1) + 2
  {
    var windows: nat :| AllowedBy(w, seller, lo, hi, made, windows);
    if windows > 0 {
      assert (windows - 1) * (WINDOW + 1) <= hi - lo;
    }
  }

  lemma {:induction false} BeginsSomewhere(es: seq<Event>, seller: Id, n: nat, from: int, skew: nat)
      returns (begin: nat)
    requires ClockSkew(es, seller, skew) && n <= |es|
    requires forall i | 0 <= i < n && Attempts(es[i], seller) :: es[i].now < from
    ensures BeginsAt(es, seller, begin, from, skew)
    decreases |es| - n
  {
    if n == |es| || (Attempts(es[n], seller) && from <= es[n].now) {
      begin := n;
    } else {
      begin := BeginsSomewhere(es, seller, n + 1, from, skew);
    }
  }

  /** In every run a closed interval of k times thirty seconds holds no more of a seller's listings
      than two and three for each window that fits it, widened by how far the clock goes back. On
      a clock that never does, that is 3k + 2, and from k = WINDOW + 1 on even 3k. */
  lemma AnyIntervalBound(ws: seq<World>, es: seq<Event>, seller: Id, from: int, k: nat, skew: nat)
    requires IsRun(ws, es) && ClockSkew(es, seller, skew) && k >= 1
    ensures |Limiter.Within(Times(ws, es, seller, |es|), from, from + k * WINDOW)|
         <= 3 * ((k * WINDOW + 2 * skew) / (WINDOW + 1) + 1) + 2
    ensures skew == 0 ==>
      |Limiter.Within(Times(ws, es, seller, |es|), from, from + k * WINDOW)| <= if k <= WINDOW then 3 * k + 2 else 3 * k
  {
    hide Step, Enabled, Allowed, Times, ClockSkew;
    var n := BeginsSomewhere(es, seller, 0, from, skew);
    IntervalAllowed(ws, es, seller, n, |es|, from, from + k * WINDOW, skew);
    RunWindowsOk(ws, es, n);
    var made := |Limiter.Within(Times(ws, es, seller, |es|), from, from + k * WINDOW)|;
    AllowedAnyway(ws[n], seller, from - skew, from + k * WINDOW + skew, made);
    if skew == 0 {
      AllowedNumber(ws[n], seller, from, k, made);
    }
  }
}
