/** When three listings per thirty seconds are kept. */
module SafeIntervals {
  import opened Base
  import opened World
  import opened Listings
  import Limiter

  /** A run whose attempts by the seller reach `from` with call `n`. */
  ghost predicate Continues(ws: seq<World>, es: seq<Event>, seller: Id, n: nat, from: int) {
    IsRun(ws, es) && ClockForward(es, seller) && BeginsAt(es, seller, n, from, 0)
  }

  /** However a run goes on from the state, the interval holds at most three listings for each
      thirty seconds. */
  ghost predicate SafeFrom(w: World, seller: Id, from: int, k: nat) {
    forall ws, es, n: nat | Continues(ws, es, seller, n, from) && ws[n] == w ::
      |Limiter.Within(Times(ws, es, seller, |es|), from, from + k * WINDOW)| <= 3 * k
  }

  lemma ClosedBounds(ws: seq<World>, es: seq<Event>, seller: Id, n: nat, from: int, k: nat)
    requires Continues(ws, es, seller, n, from) && k >= 1 && !OpenWindow(ws[n], seller, from, k)
    ensures |Limiter.Within(Times(ws, es, seller, |es|), from, from + k * WINDOW)| <= 3 * k
  {
    hide Step, Enabled, Allowed, OpenWindow;
    IntervalAllowed(ws, es, seller, n, |es|, from, from + k * WINDOW, 0);
    RunWindowsOk(ws, es, n);
    AllowedNumber(ws[n], seller, from, k, |Limiter.Within(Times(ws, es, seller, |es|), from, from + k * WINDOW)|);
  }

  lemma ClosedIsSafe(w: World, seller: Id, from: int, k: nat)
    requires k >= 1 && !OpenWindow(w, seller, from, k)
    ensures SafeFrom(w, seller, from, k)
  {
    hide Step, Enabled, OpenWindow, Follows, Times, Init, GoodSeeds, ClockForward, Limiter.Within;
    forall ws, es, n: nat | Continues(ws, es, seller, n, from) && ws[n] == w
      ensures |Limiter.Within(Times(ws, es, seller, |es|), from, from + k * WINDOW)| <= 3 * k
    {
      ClosedBounds(ws, es, seller, n, from, k);
    }
  }

  // Runs that go on

  /** One run goes on as another, with no attempt by the seller before `lo`. */
  ghost predicate GoesOn(ws: seq<World>, es: seq<Event>, ws': seq<World>, es': seq<Event>, seller: Id, lo: int) {
    && ws <= ws' && es <= es'
    && forall i | |es| <= i < |es'| && Attempts(es'[i], seller) :: lo <= es'[i].now
  }

  lemma GoesOnTwice(ws: seq<World>, es: seq<Event>, ws1: seq<World>, es1: seq<Event>,
                    ws2: seq<World>, es2: seq<Event>, seller: Id, lo: int)
    requires GoesOn(ws, es, ws1, es1, seller, lo) && GoesOn(ws1, es1, ws2, es2, seller, lo)
    ensures GoesOn(ws, es, ws2, es2, seller, lo)
  {
    forall i | |es| <= i < |es2| && Attempts(es2[i], seller)
      ensures lo <= es2[i].now
    {
      assert i < |es1| ==> es2[i] == es1[i];
    }
  }

  lemma {:induction false} TimesSoFar(ws: seq<World>, es: seq<Event>, ws': seq<World>, es': seq<Event>,
                                      seller: Id, n: nat)
    requires |ws| == |es| + 1 && |ws'| == |es'| + 1 && ws <= ws' && es <= es' && n <= |es|
    ensures Times(ws', es', seller, n) == Times(ws, es, seller, n)
  {
    hide Step;
    if n > 0 {
      TimesSoFar(ws, es, ws', es', seller, n - 1);
    }
  }

  /** A run after which the seller can pay `budget`, has made no attempt after `last`, and every
      identifier from `nextId` on is fresh. */
  ghost predicate Ready(ws: seq<World>, es: seq<Event>, seller: Id, last: int, budget: int, nextId: Id) {
    && IsRun(ws, es) && ClockForward(es, seller)
    && (forall i | 0 <= i < |es| && Attempts(es[i], seller) :: es[i].now <= last)
    && seller in ws[|es|].players && ws[|es|].players[seller].wallet >= budget
    && forall id | id in ws[|es|].issued :: id < nextId
  }

  /** What the run looks like with one call more. */
  lemma OneMore(ws: seq<World>, es: seq<Event>, e: Event, seller: Id, lo: int)
      returns (ws': seq<World>, es': seq<Event>)
    requires IsRun(ws, es) && Enabled(ws[|es|], e) && (Attempts(e, seller) ==> lo <= e.now)
    ensures ws' == ws + [Step(ws[|es|], e).0] && es' == es + [e] && IsRun(ws', es')
    ensures GoesOn(ws, es, ws', es', seller, lo)
    ensures Times(ws', es', seller, |es'|)
         == Times(ws, es, seller, |es|) + (if Lists(ws[|es|], e, seller) then [e.now] else [])
  {
    hide Step, Enabled, Lists;
    ws', es' := ws + [Step(ws[|es|], e).0], es + [e];
    RunGoesOn(ws, es, e);
    TimesSoFar(ws, es, ws', es', seller, |es|);
  }

  // One listing

  /** A listing at the price floor by a seller who can pay for it, at a time the window allows. */
  lemma ListingEffect(w: World, seller: Id, now: int, newId: Id)
    requires seller in w.players && w.players[seller].wallet >= LISTING_FEE && newId !in w.issued
    requires var open := Window(w, seller);
             open.Some? ==> open.value.1 < 3 || now > open.value.0 + WINDOW
    ensures var e := CreateListing(seller, PRICE_FLOOR, None, now, newId);
            var w' := Step(w, e).0;
            && Enabled(w, e) && Lists(w, e, seller)
            && seller in w'.players && w'.players[seller].wallet == w.players[seller].wallet - LISTING_FEE
            && w'.issued == w.issued + {newId}
  {
    hide AccountStep, DuelStep, NpcStep, ModeStep, Grows, SameArena, SameSwitches;
  }

  lemma ListOnce(ws: seq<World>, es: seq<Event>, seller: Id, now: int, last: int, budget: int, nextId: Id, lo: int)
      returns (ws': seq<World>, es': seq<Event>)
    requires Ready(ws, es, seller, last, budget, nextId) && budget >= LISTING_FEE && last <= now && lo <= now
    requires var open := Window(ws[|es|], seller);
             open.Some? ==> open.value.1 < 3 || now > open.value.0 + WINDOW
    ensures Ready(ws', es', seller, now, budget - LISTING_FEE, nextId + 1) && GoesOn(ws, es, ws', es', seller, lo)
    ensures Times(ws', es', seller, |es'|) == Times(ws, es, seller, |es|) + [now]
    ensures var open := Window(ws[|es|], seller);
            Window(ws'[|es'|], seller) ==
              if open.Some? && now <= open.value.0 + WINDOW then Some((open.value.0, open.value.1 + 1))
              else Some((now, 1))
  {
    hide Step, Enabled, Lists, WindowsOk;
    var w, e := ws[|es|], CreateListing(seller, PRICE_FLOOR, None, now, nextId);
    ListingEffect(w, seller, now, nextId);
    ws', es' := OneMore(ws, es, e, seller, lo);
    RunWindowsOk(ws, es, |es|);
    WindowStep(w, e, seller);
  }

  /** The open window is filled at one moment. */
  lemma {:induction false} FillWindow(ws: seq<World>, es: seq<Event>, seller: Id, now: int, last: int, budget: int,
                                      nextId: Id, lo: int, hi: int)
      returns (ws': seq<World>, es': seq<Event>, nextId': Id)
    requires Ready(ws, es, seller, last, budget, nextId) && last <= now && lo <= now <= hi
    requires var open := Window(ws[|es|], seller);
             open.Some? && open.value.1 <= 3 && now <= open.value.0 + WINDOW
             && budget >= LISTING_FEE * (3 - open.value.1)
    ensures var open := Window(ws[|es|], seller).value;
            && Ready(ws', es', seller, now, budget - LISTING_FEE * (3 - open.1), nextId')
            && Window(ws'[|es'|], seller) == Some((open.0, 3))
            && |Limiter.Within(Times(ws', es', seller, |es'|), lo, hi)|
            == |Limiter.Within(Times(ws, es, seller, |es|), lo, hi)| + 3 - open.1
    ensures GoesOn(ws, es, ws', es', seller, lo)
    decreases 3 - Window(ws[|es|], seller).value.1
  {
    var open := Window(ws[|es|], seller).value;
    if open.1 == 3 {
      ws', es', nextId' := ws, es, nextId;
    } else {
      hide IsRun, Window, ClockForward;
      var ws1, es1 := ListOnce(ws, es, seller, now, last, budget, nextId, lo);
      Limiter.WithinSnoc(Times(ws, es, seller, |es|), now, lo, hi);
      ws', es', nextId' := FillWindow(ws1, es1, seller, now, now, budget - LISTING_FEE, nextId + 1, lo, hi);
      GoesOnTwice(ws, es, ws1, es1, ws', es', seller, lo);
    }
  }

  /** One window after the other, each opened as soon as the limiter lets it and filled at once. */
  lemma {:induction false} FillWindows(ws: seq<World>, es: seq<Event>, seller: Id, last: int, budget: int, nextId: Id,
                                       lo: int, hi: int, k: nat)
      returns (ws': seq<World>, es': seq<Event>)
    requires Ready(ws, es, seller, last, budget, nextId) && budget >= 3 * LISTING_FEE * k
    requires var open := Window(ws[|es|], seller);
             && open.Some? && open.value.1 == 3
             && last <= open.value.0 + WINDOW + 1 && lo <= open.value.0 + WINDOW + 1
             && open.value.0 + k * (WINDOW + 1) <= hi
    ensures IsRun(ws', es') && ClockForward(es', seller) && GoesOn(ws, es, ws', es', seller, lo)
    ensures |Limiter.Within(Times(ws', es', seller, |es'|), lo, hi)|
         == |Limiter.Within(Times(ws, es, seller, |es|), lo, hi)| + 3 * k
    decreases k
  {
    if k == 0 {
      ws', es' := ws, es;
    } else {
      var start := Window(ws[|es|], seller).value.0 + WINDOW + 1;
      assert start + (k - 1) * (WINDOW + 1) <= hi;
      hide IsRun, Window, ClockForward;
      var ws1, es1 := ListOnce(ws, es, seller, start, last, budget, nextId, lo);
      Limiter.WithinSnoc(Times(ws, es, seller, |es|), start, lo, hi);
      var ws2, es2, id := FillWindow(ws1, es1, seller, start, start, budget - LISTING_FEE, nextId + 1, lo, hi);
      ws', es' := FillWindows(ws2, es2, seller, start, budget - 3 * LISTING_FEE, id, lo, hi, k - 1);
      GoesOnTwice(ws, es, ws1, es1, ws2, es2, seller, lo);
      GoesOnTwice(ws, es, ws2, es2, ws', es', seller, lo);
    }
  }

  // A window that overflows

  lemma {:induction false} AllBelow(ids: set<Id>) returns (bound: Id)
    ensures forall id | id in ids :: id < bound
    decreases |ids|
  {
    if ids == {} {
      bound := 0;
    } else {
      var id :| id in ids;
      var rest := AllBelow(ids - {id});
      bound := Max(rest, id + 1);
      assert ids == (ids - {id}) + {id};
    }
  }

  /** A style reward that covers the fees. */
  lemma FundingEffect(w: World, seller: Id, budget: int) returns (e: Event)
    requires seller in w.players
    ensures Enabled(w, e) && !Attempts(e, seller)
    ensures var w' := Step(w, e).0;
            && seller in w'.players && w'.players[seller].wallet >= budget
            && w'.issued == w.issued && w'.listingWindows == w.listingWindows
  {
    hide MarketStep, DuelStep, NpcStep, ModeStep, Grows, SameArena, SameSwitches;
    var p := w.players[seller];
    var day := if p.styleDay.Some? then p.styleDay.value + 1 else 0;
    e := StyleBonus(seller, day, Max(0, budget - p.wallet));
  }

  /** Before the interval: the fees are covered and nothing has been listed in it. */
  lemma Funded(ws: seq<World>, es: seq<Event>, seller: Id, from: int, hi: int, budget: int)
      returns (ws': seq<World>, es': seq<Event>, nextId: Id)
    requires IsRun(ws, es) && ClockForward(es, seller) && seller in ws[|es|].players
    requires forall i | 0 <= i < |es| && Attempts(es[i], seller) :: es[i].now < from
    ensures Ready(ws', es', seller, from - 1, budget, nextId) && GoesOn(ws, es, ws', es', seller, from)
    ensures Window(ws'[|es'|], seller) == Window(ws[|es|], seller)
    ensures Limiter.Within(Times(ws', es', seller, |es'|), from, hi) == []
  {
    hide Step, Enabled, Lists;
    nextId := AllBelow(ws[|es|].issued);
    var fund := FundingEffect(ws[|es|], seller, budget);
    ws', es' := OneMore(ws, es, fund, seller, from);
    assert forall i | 0 <= i < |es'| && Attempts(es'[i], seller) :: es'[i].now < from;
    EarlierTimes(ws', es', seller, |es'|, from);
    WithinNone(Times(ws', es', seller, |es'|), from, hi);
  }

  /** If a window is open that can still fill up inside the interval, a run goes on to make as
      many listings in it as the window still takes, and three in each of k windows more. */
  lemma OpenOverflows(ws: seq<World>, es: seq<Event>, seller: Id, from: int, k: nat)
      returns (ws': seq<World>, es': seq<Event>)
    requires IsRun(ws, es) && ClockForward(es, seller) && k >= 1
    requires forall i | 0 <= i < |es| && Attempts(es[i], seller) :: es[i].now < from
    requires OpenWindow(ws[|es|], seller, from, k)
    ensures Continues(ws', es', seller, |es|, from) && |ws'| > |es| && ws'[|es|] == ws[|es|]
    ensures |Limiter.Within(Times(ws', es', seller, |es'|), from, from + k * WINDOW)|
         == 3 * k + 3 - Window(ws[|es|], seller).value.1
  {
    var hi, open := from + k * WINDOW, Window(ws[|es|], seller).value;
    assert open.0 + k * (WINDOW + 1) <= hi;
    RunWindowsOk(ws, es, |es|);
    hide Step, Enabled, Follows, Times, ClockForward, Window, Init, GoodSeeds;
    var budget := LISTING_FEE * (3 + 3 * k);
    var ws1, es1, id1 := Funded(ws, es, seller, from, hi, budget);
    var ws2, es2, id2 := FillWindow(ws1, es1, seller, open.0 + WINDOW, from - 1, budget, id1, from, hi);
    ws', es' := FillWindows(ws2, es2, seller, open.0 + WINDOW, LISTING_FEE * (open.1 + 3 * k), id2, from, hi, k);
    GoesOnTwice(ws, es, ws1, es1, ws2, es2, seller, from);
    GoesOnTwice(ws, es, ws2, es2, ws', es', seller, from);
  }

  lemma TooMany(ws: seq<World>, es: seq<Event>, seller: Id, n: nat, from: int, k: nat)
    requires Continues(ws, es, seller, n, from)
    requires |Limiter.Within(Times(ws, es, seller, |es|), from, from + k * WINDOW)| > 3 * k
    ensures !SafeFrom(ws[n], seller, from, k)
  {
    hide IsRun, ClockForward, BeginsAt, Times;
  }

  /** At any point of any run, before a seller's attempts reach `from`: the closed interval of k
      times thirty seconds is safe, however the run goes on, if and only if no window of that
      seller is open that has taken fewer than three listings, reaches into the interval, and
      opened at least k clock ticks before it. */
  lemma SafeIffNoOpenWindow(ws: seq<World>, es: seq<Event>, seller: Id, from: int, k: nat)
    requires IsRun(ws, es) && ClockForward(es, seller) && k >= 1
    requires forall i | 0 <= i < |es| && Attempts(es[i], seller) :: es[i].now < from
    ensures SafeFrom(ws[|es|], seller, from, k) <==> !OpenWindow(ws[|es|], seller, from, k)
  {
    hide Step, Enabled, Follows, Init, GoodSeeds, SafeFrom;
    if OpenWindow(ws[|es|], seller, from, k) {
      RunWindowsOk(ws, es, |es|);
      var ws', es' := OpenOverflows(ws, es, seller, from, k);
      TooMany(ws', es', seller, |es|, from, k);
    } else {
      ClosedIsSafe(ws[|es|], seller, from, k);
    }
  }

  /** A seller's first listing, at time 0. */
  lemma FirstListing() returns (ws: seq<World>, es: seq<Event>)
    ensures IsRun(ws, es) && ClockForward(es, 0)
    ensures forall i | 0 <= i < |es| && Attempts(es[i], 0) :: es[i].now == 0
    ensures Window(ws[|es|], 0) == Some((0, 1))
  {
    hide Step, Enabled;
    var join := Login("seller", "10.0.0.1", {}, 0);
    var w := Init(map[], {});
    assert IsRun([w], []);
    Joins(w, join);
    var ws1, es1 := OneMore([w], [], join, 0, 0);
    assert Ready(ws1, es1, 0, 0, 500, 1);
    ws, es := ListOnce(ws1, es1, 0, 0, 0, 500, 1, 0);
  }

  lemma Joins(w: World, e: Event)
    requires w == Init(w.npcs, w.missions) && e == Login("seller", "10.0.0.1", {}, 0)
    ensures Enabled(w, e)
    ensures var w' := Step(w, e).0;
            0 in w'.players && w'.players[0].wallet == 500 && w'.issued == {0} && w'.listingWindows == map[]
  {
    hide MarketStep, DuelStep, NpcStep, ModeStep, Grows;
  }

  /** The bound of 3k + 2 is reached for every k from 1 to WINDOW: in k times thirty seconds that
      begin k clock ticks after a window has opened. */
  lemma BoundReached(k: nat) returns (ws: seq<World>, es: seq<Event>)
    requires 1 <= k <= WINDOW
    ensures IsRun(ws, es) && ClockForward(es, 0)
    ensures |Limiter.Within(Times(ws, es, 0, |es|), k, k + k * WINDOW)| == 3 * k + 2
  {
    var ws0, es0 := FirstListing();
    hide IsRun, Step, Times;
    ws, es := OpenOverflows(ws0, es0, 0, k, k);
  }
}
