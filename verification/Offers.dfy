/** When listings, bids and sales succeed, told from the calls so far. */
module Offers {
  import opened Base
  import opened World
  import opened Auctions

  // One call

  /** Three listings in a window that is still open. */
  predicate WindowFull(w: World, seller: Id, now: int) {
    && seller in w.listingWindows
    && now - w.listingWindows[seller].0 <= 30 * SECOND && w.listingWindows[seller].1 >= 3
  }

  /** A listing succeeds if and only if the price is at the floor, the seller can pay the fee, and
      no window of theirs is full; it then stands as asked, for twelve hours. */
  lemma ListingExact(w: World, e: Event)
    requires e.CreateListing?
    ensures var (w', r) := Step(w, e);
            && (r == Listed <==> e.startPrice >= 25 && e.seller in w.players && w.players[e.seller].wallet >= 10
                                 && !WindowFull(w, e.seller, e.now))
            && w'.auctions == (if r == Listed
                               then w.auctions[e.newId := Listing(e.seller, e.startPrice, e.buyoutPrice,
                                                                  e.now + 43_200 * SECOND, None, None)]
                               else w.auctions)
            && w'.issued == (if r == Listed then w.issued + {e.newId} else w.issued)
            && (r == Listed || r == Refused)
  {
    hide AccountStep, DuelStep, NpcStep, ModeStep, Grows, SameArena, SameSwitches, OnlyPlayers;
  }

  /** A bid succeeds if and only if the listing stands and has not expired, the bid is above the
      last and the starting price, and the bidder can pay it. */
  lemma BidExact(w: World, e: Event)
    requires e.PlaceBid?
    ensures var (w', r) := Step(w, e);
            && (r == Done <==>
                  && e.bidder in w.players && w.players[e.bidder].wallet >= e.amount
                  && e.listing in w.auctions && e.now <= w.auctions[e.listing].expiresAt
                  && e.amount > w.auctions[e.listing].highestBid.GetOr(w.auctions[e.listing].startPrice))
            && (r == Done || r == Refused)
  {
    hide AccountStep, DuelStep, NpcStep, ModeStep, Grows, SameArena, SameSwitches;
  }

  /** A sale succeeds if and only if the listing stands with a price to buy it at once, and the
      buyer can pay that. */
  lemma SaleExact(w: World, e: Event)
    requires e.Buyout?
    ensures var (w', r) := Step(w, e);
            var sells := e.listing in w.auctions && w.auctions[e.listing].buyout.Some? && e.buyer in w.players
                         && w.players[e.buyer].wallet >= w.auctions[e.listing].buyout.value;
            && r == (if sells then Sold(w.auctions[e.listing].buyout.value) else Refused)
            && w'.auctions == (if sells then w.auctions - {e.listing} else w.auctions)
            && w'.issued == w.issued
  {
    hide AccountStep, DuelStep, NpcStep, ModeStep, Grows, SameArena, SameSwitches, AddToWallet, Tax;
  }

  // Whole runs

  /** The call that made a listing. */
  ghost function ListedBy(ws: seq<World>, es: seq<Event>, id: Id, n: nat): Option<Event>
    requires |ws| == |es| + 1 && n <= |es|
  {
    if n == 0 then None
    else if es[n - 1].CreateListing? && es[n - 1].newId == id && Step(ws[n - 1], es[n - 1]).1 == Listed then
      Some(es[n - 1])
    else ListedBy(ws, es, id, n - 1)
  }

  /** It stands if it was made and has not been sold. */
  ghost predicate Stands(ws: seq<World>, es: seq<Event>, id: Id, n: nat)
    requires |ws| == |es| + 1 && n <= |es|
  {
    ListedBy(ws, es, id, n).Some? && Sales(ws, es, id, n) == 0
  }

  /** The listing that the call and the accepted bids make. */
  function ListingOf(made: Event, bids: seq<Bid>): Listing
    requires made.CreateListing?
  {
    var last := if bids == [] then None else Some(bids[|bids| - 1]);
    Listing(made.seller, made.startPrice, made.buyoutPrice, made.now + 43_200 * SECOND,
            if last.Some? then Some(last.value.amount) else None, if last.Some? then Some(last.value.bidder) else None)
  }

  ghost predicate MarketTold(w: World, id: Id, made: Option<Event>, bids: seq<Bid>, sales: nat) {
    && (made.Some? ==> made.value.CreateListing?)
    && (id in w.auctions <==> made.Some? && sales == 0)
    && (id in w.auctions ==> w.auctions[id] == ListingOf(made.value, bids))
    && (id !in w.issued ==> made.None? && sales == 0 && bids == [])
  }

  lemma BidTold(w: World, e: Event, id: Id, made: Option<Event>, bids: seq<Bid>, sales: nat)
    requires e.PlaceBid? && MarketTold(w, id, made, bids, sales)
    requires id in w.auctions ==> id in w.issued
    ensures MarketTold(Step(w, e).0, id, made, if IsBid(w, e, id) then bids + [BidOf(e)] else bids, sales)
  {
    hide AccountStep, MarketStep, DuelStep, NpcStep, ModeStep;
    BidEffect(w, e);
  }

  lemma ListingTold(w: World, e: Event, id: Id, made: Option<Event>, bids: seq<Bid>, sales: nat)
    requires e.CreateListing? && Enabled(w, e) && MarketTold(w, id, made, bids, sales)
    requires id in w.auctions ==> id in w.issued
    ensures var listed := e.newId == id && Step(w, e).1 == Listed;
            MarketTold(Step(w, e).0, id, if listed then Some(e) else made, bids, sales)
  {
    hide Step;
    ListingExact(w, e);
  }

  lemma SaleTold(w: World, e: Event, id: Id, made: Option<Event>, bids: seq<Bid>, sales: nat)
    requires e.Buyout? && MarketTold(w, id, made, bids, sales)
    requires id in w.auctions ==> id in w.issued
    ensures MarketTold(Step(w, e).0, id, made, bids, sales + if IsSale(w, e, id) then 1 else 0)
  {
    hide Step;
    SaleExact(w, e);
  }

  lemma OtherTold(w: World, e: Event, id: Id, made: Option<Event>, bids: seq<Bid>, sales: nat)
    requires !MarketEvent(e) && MarketTold(w, id, made, bids, sales)
    ensures MarketTold(Step(w, e).0, id, made, bids, sales)
  {
    hide AccountStep, DuelStep, NpcStep, ModeStep, ListingOf;
  }

  /** At any point of any run, a listing stands exactly if a call made it and none has sold it, and
      is as that call and the accepted bids make it. */
  lemma {:induction false} MarketReplays(ws: seq<World>, es: seq<Event>, id: Id, n: nat)
    requires IsRun(ws, es) && n <= |es|
    ensures MarketTold(ws[n], id, ListedBy(ws, es, id, n), Accepted(ws, es, id, n), Sales(ws, es, id, n))
  {
    hide Step, Enabled, IsBid, IsSale, ListingOf;
    if n > 0 {
      MarketReplays(ws, es, id, n - 1);
      BidsReplay(ws, es, id, n - 1);
      assert Follows(ws, es, n - 1);
      var w, e := ws[n - 1], es[n - 1];
      var made, bids, sales := ListedBy(ws, es, id, n - 1), Accepted(ws, es, id, n - 1), Sales(ws, es, id, n - 1);
      assert bids + [] == bids;
      assert id in w.auctions ==> id in w.issued;
      OneKindOnly(w, e, id);
      hide MarketTold, IdsIssued;
      if e.PlaceBid? {
        BidTold(w, e, id, made, bids, sales);
      } else if e.CreateListing? {
        ListingTold(w, e, id, made, bids, sales);
      } else if e.Buyout? {
        SaleTold(w, e, id, made, bids, sales);
      } else {
        OtherTold(w, e, id, made, bids, sales);
      }
    }
  }

  lemma OneKindOnly(w: World, e: Event, id: Id)
    ensures IsBid(w, e, id) ==> e.PlaceBid?
    ensures IsSale(w, e, id) ==> e.Buyout?
  {
  }

  /** A bid on a listing is accepted if and only if it stands, at most twelve hours have passed
      since it was made, the bid is above the last accepted one, or above the starting price if
      there is none, and the bidder can pay it. */
  lemma BidAcceptedIff(ws: seq<World>, es: seq<Event>, n: nat)
    requires IsRun(ws, es) && n < |es| && es[n].PlaceBid?
    ensures var e := es[n];
            var made, bids := ListedBy(ws, es, e.listing, n), Accepted(ws, es, e.listing, n);
            && (made.Some? ==> made.value.CreateListing?)
            && (Step(ws[n], e).1 == Done <==>
                  && Stands(ws, es, e.listing, n) && e.now <= made.value.now + 12 * 3600 * SECOND
                  && e.amount > (if bids == [] then made.value.startPrice else bids[|bids| - 1].amount)
                  && e.bidder in ws[n].players && ws[n].players[e.bidder].wallet >= e.amount)
  {
    hide Step, Follows, Init, GoodSeeds;
    MarketReplays(ws, es, es[n].listing, n);
    BidExact(ws[n], es[n]);
  }

  /** A sale goes through if and only if the listing stands, was made with a price to buy it at
      once, and the buyer can pay that; and that is the price. */
  lemma SoldIff(ws: seq<World>, es: seq<Event>, n: nat)
    requires IsRun(ws, es) && n < |es| && es[n].Buyout?
    ensures var e := es[n];
            var made := ListedBy(ws, es, e.listing, n);
            && (made.Some? ==> made.value.CreateListing?)
            && Step(ws[n], e).1 ==
                 if Stands(ws, es, e.listing, n) && made.value.buyoutPrice.Some? && e.buyer in ws[n].players
                    && ws[n].players[e.buyer].wallet >= made.value.buyoutPrice.value
                 then Sold(made.value.buyoutPrice.value) else Refused
  {
    hide Step, Follows, Init, GoodSeeds;
    MarketReplays(ws, es, es[n].listing, n);
    SaleExact(ws[n], es[n]);
  }
}
