/** Auctions: bids rise, and each listing is sold once. */
module Auctions {
  import opened Base
  import opened World

  datatype Bid = Bid(bidder: Id, amount: int, at: int)

  predicate IsBid(w: World, e: Event, id: Id) {
    e.PlaceBid? && e.listing == id && Step(w, e).1 == Done
  }

  function BidOf(e: Event): Bid
    requires e.PlaceBid?
  {
    Bid(e.bidder, e.amount, e.now)
  }

  /** The accepted bids on a listing, in order. */
  ghost function Accepted(ws: seq<World>, es: seq<Event>, id: Id, n: nat): seq<Bid>
    requires |ws| == |es| + 1 && n <= |es|
  {
    if n == 0 then []
    else
      Accepted(ws, es, id, n - 1)
      + (if IsBid(ws[n - 1], es[n - 1], id) then [BidOf(es[n - 1])] else [])
  }

  ghost predicate Rising(bids: seq<Bid>) {
    forall i, j | 0 <= i < j < |bids| :: bids[i].amount < bids[j].amount
  }

  ghost predicate Records(l: Listing, bids: seq<Bid>) {
    && l.startPrice >= PRICE_FLOOR
    && (forall i | 0 <= i < |bids| :: bids[i].amount > l.startPrice && bids[i].at <= l.expiresAt)
    && (if bids == [] then l.highestBid.None? && l.highestBidder.None?
        else l.highestBid == Some(bids[|bids| - 1].amount) && l.highestBidder == Some(bids[|bids| - 1].bidder))
  }

  ghost predicate BidsOk(w: World, id: Id, bids: seq<Bid>) {
    && Rising(bids)
    && (id in w.auctions ==> Records(w.auctions[id], bids))
    && (id !in w.issued ==> bids == [])
  }

  lemma BidEffect(w: World, e: Event)
    requires e.PlaceBid?
    ensures var (w', r) := MarketStep(w, e);
            && w'.issued == w.issued
            && if r == Done then
                 && e.listing in w.auctions
                 && e.bidder in w.players && e.amount <= w.players[e.bidder].wallet
                 && (var l := w.auctions[e.listing];
                     && e.now <= l.expiresAt
                     && e.amount > (if l.highestBid.Some? then l.highestBid.value else l.startPrice)
                     && w'.auctions == w.auctions[e.listing := l.(highestBid := Some(e.amount),
                                                                   highestBidder := Some(e.bidder))])
               else w' == w
  {
    hide Grows;
  }

  lemma BidKeeps(w: World, e: Event, bids: seq<Bid>)
    requires e.PlaceBid? && IdsIssued(w) && BidsOk(w, e.listing, bids)
    ensures var (w', r) := MarketStep(w, e);
            BidsOk(w', e.listing, if r == Done then bids + [BidOf(e)] else bids)
  {
    hide MarketStep;
    BidEffect(w, e);
  }

  lemma OtherBidKeeps(w: World, e: Event, id: Id, bids: seq<Bid>)
    requires e.PlaceBid? && e.listing != id && BidsOk(w, id, bids)
    ensures BidsOk(MarketStep(w, e).0, id, bids)
  {
    hide MarketStep;
    BidEffect(w, e);
  }

  lemma SalesKeep(w: World, e: Event, id: Id, bids: seq<Bid>)
    requires (e.CreateListing? || e.Buyout?) && IdsIssued(w) && Enabled(w, e) && BidsOk(w, id, bids)
    ensures BidsOk(MarketStep(w, e).0, id, bids)
  {
    hide Rising, CurrentWindow, AddToWallet, Tax, Grows, SameArena, SameSwitches;
  }

  lemma StepKeepsBids(w: World, e: Event, id: Id, bids: seq<Bid>)
    requires IdsIssued(w) && Enabled(w, e) && BidsOk(w, id, bids)
    ensures BidsOk(Step(w, e).0, id, if IsBid(w, e, id) then bids + [BidOf(e)] else bids)
  {
    hide AccountStep, MarketStep, DuelStep, NpcStep, ModeStep, Enabled, Rising, Records;
    if e.PlaceBid? {
      if e.listing == id {
        BidKeeps(w, e, bids);
      } else {
        OtherBidKeeps(w, e, id, bids);
      }
    } else if MarketEvent(e) {
      SalesKeep(w, e, id, bids);
    }
  }

  /** Over any run, the accepted bids on a listing strictly rise; and while the listing stands,
      each was above the starting price and in time, and the highest bid and bidder are those
      of the last one. */
  lemma {:induction false} BidsReplay(ws: seq<World>, es: seq<Event>, id: Id, n: nat)
    requires IsRun(ws, es) && n <= |es|
    ensures IdsIssued(ws[n])
    ensures Rising(Accepted(ws, es, id, n))
    ensures id in ws[n].auctions ==> Records(ws[n].auctions[id], Accepted(ws, es, id, n))
    ensures id !in ws[n].issued ==> Accepted(ws, es, id, n) == []
  {
    hide Step, Enabled, IsBid, Rising, Records;
    if n == 0 {
      assert Rising([]) by {
        NothingRises();
      }
    } else {
      BidsReplay(ws, es, id, n - 1);
      assert Follows(ws, es, n - 1);
      var bids := Accepted(ws, es, id, n - 1);
      assert bids + [] == bids;
      StepKeepsBids(ws[n - 1], es[n - 1], id, bids);
    }
  }

  lemma NothingRises()
    ensures Rising([])
  {
  }

  // Sales

  /** What one player's wallet gains from a sale, in any of the parts they may play in it. */
  function SaleGain(w: World, e: Event, id: Id, price: int): int
    requires e.Buyout? && e.listing in w.auctions
  {
    (if id == e.buyer then -price else 0) + (if id == w.auctions[e.listing].seller then price - Tax(price) else 0)
  }

  lemma TwoPayments(w: World, first: Id, x: int, second: Id, y: int)
    ensures var w' := AddToWallet(AddToWallet(w, first, x), second, y);
            && OnlyPlayers(w, w')
            && forall id | id in w.players ::
                 var gain := (if id == first then x else 0) + (if id == second then y else 0);
                 w'.players[id] == w.players[id].(wallet := w.players[id].wallet + gain)
  {
    hide AddToWallet;
    AddToWalletExact(w, first, x);
    AddToWalletExact(AddToWallet(w, first, x), second, y);
  }

  /** A sale takes exactly the listing away, and moves the asked price from the buyer to the
      seller less the tax; whoever buys their own listing loses just the tax. */
  lemma SaleMovesPrice(w: World, e: Event)
    requires e.Buyout? && Step(w, e).1.Sold?
    ensures e.listing in w.auctions && w.auctions[e.listing].buyout == Some(Step(w, e).1.price)
    ensures e.buyer in w.players && w.players[e.buyer].wallet >= Step(w, e).1.price
    ensures var (w', r) := Step(w, e);
            && w' == w.(auctions := w.auctions - {e.listing}, players := w'.players)
            && w'.players.Keys == w.players.Keys
            && forall id | id in w.players ::
                 w'.players[id] == w.players[id].(wallet := w.players[id].wallet + SaleGain(w, e, id, r.price))
  {
    hide AccountStep, DuelStep, NpcStep, ModeStep, Grows, SameArena, SameSwitches, SameNpcs, Tax, AddToWallet;
    var price, seller := Step(w, e).1.price, w.auctions[e.listing].seller;
    var sold := w.(auctions := w.auctions - {e.listing});
    TwoPayments(sold, e.buyer, -price, seller, price - Tax(price));
  }

  predicate IsSale(w: World, e: Event, id: Id) {
    e.Buyout? && e.listing == id && Step(w, e).1.Sold?
  }

  ghost function Sales(ws: seq<World>, es: seq<Event>, id: Id, n: nat): nat
    requires |ws| == |es| + 1 && n <= |es|
  {
    if n == 0 then 0 else Sales(ws, es, id, n - 1) + (if IsSale(ws[n - 1], es[n - 1], id) then 1 else 0)
  }

  ghost predicate SalesOk(w: World, id: Id, sales: nat) {
    && sales <= 1
    && (id in w.auctions || id !in w.issued ==> sales == 0)
  }

  lemma StepKeepsSales(w: World, e: Event, id: Id, sales: nat)
    requires IdsIssued(w) && Enabled(w, e) && SalesOk(w, id, sales)
    ensures SalesOk(Step(w, e).0, id, sales + if IsSale(w, e, id) then 1 else 0)
  {
    hide AccountStep, DuelStep, NpcStep, ModeStep;
    if MarketEvent(e) {
      hide CurrentWindow, AddToWallet, Tax, Grows, SameArena, SameSwitches;
      if e.PlaceBid? {
        hide MarketStep;
        BidEffect(w, e);
      }
    } else {
      hide MarketStep, Enabled;
    }
  }

  /** No listing is ever sold twice, and none that has been sold stands. */
  lemma {:induction false} SoldOnce(ws: seq<World>, es: seq<Event>, id: Id, n: nat)
    requires IsRun(ws, es) && n <= |es|
    ensures Sales(ws, es, id, n) <= 1
    ensures id in ws[n].auctions || id !in ws[n].issued ==> Sales(ws, es, id, n) == 0
  {
    hide Step, Enabled, IsSale, IdsIssued, Rising, Records, Accepted;
    if n > 0 {
      SoldOnce(ws, es, id, n - 1);
      BidsReplay(ws, es, id, n - 1);
      assert Follows(ws, es, n - 1);
      StepKeepsSales(ws[n - 1], es[n - 1], id, Sales(ws, es, id, n - 1));
    }
  }
}
