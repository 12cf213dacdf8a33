/** What market, duel and NPC steps may do to players: wallets move, lives are lost, and a third
    death may ban a hardcore account, and that is all. Names, keys, missions, streaks and modes
    are out of their reach, which is what the laws about accounts and about the gate build on. */
module Frames {
  import opened Base
  import opened World

  /** Only the wallet, the deaths and a new ban differ. */
  ghost predicate OnlyFortune(p: Player, p': Player) {
    && p' == p.(wallet := p'.wallet, deaths := p'.deaths, banned := p'.banned)
    && p.deaths <= p'.deaths && (p.banned ==> p'.banned)
  }

  ghost predicate OnlyFortunes(w: World, w': World) {
    && w'.byUsername == w.byUsername && w'.dailyClaimed == w.dailyClaimed
    && w'.players.Keys == w.players.Keys
    && forall id | id in w.players :: OnlyFortune(w.players[id], w'.players[id])
  }

  lemma NothingChanged(w: World, w': World)
    requires w'.byUsername == w.byUsername && w'.dailyClaimed == w.dailyClaimed && w'.players == w.players
    ensures OnlyFortunes(w, w')
  {
  }

  lemma OneChanged(w: World, w': World, id: Id, p: Player)
    requires w'.byUsername == w.byUsername && w'.dailyClaimed == w.dailyClaimed
    requires id in w.players && w'.players == w.players[id := p] && OnlyFortune(w.players[id], p)
    ensures OnlyFortunes(w, w')
  {
  }

  lemma FortunesThenFortunes(w0: World, w1: World, w2: World)
    requires OnlyFortunes(w0, w1) && OnlyFortunes(w1, w2)
    ensures OnlyFortunes(w0, w2)
  {
    forall id | id in w0.players
      ensures OnlyFortune(w0.players[id], w2.players[id])
    {
      assert OnlyFortune(w0.players[id], w1.players[id]);
    }
  }

  lemma PaymentOnly(w: World, id: Id, amount: int)
    ensures OnlyFortunes(w, AddToWallet(w, id, amount))
  {
    if id in w.players {
      OneChanged(w, AddToWallet(w, id, amount), id, w.players[id].(wallet := w.players[id].wallet + amount));
    }
  }

  lemma DeathOnly(w: World, id: Id)
    ensures OnlyFortunes(w, Defeated(w, id))
  {
    if id in w.players {
      OneChanged(w, Defeated(w, id), id, Died(w.players[id]));
    }
  }

  lemma SaleOnly(w: World, buyer: Id, id: Id)
    ensures OnlyFortunes(w, DoBuyout(w, buyer, id).0)
  {
    hide OnlyFortunes, AddToWallet, Tax, Grows;
    var w' := DoBuyout(w, buyer, id).0;
    if w' == w {
      NothingChanged(w, w');
    } else {
      var price := w.auctions[id].buyout.value;
      var sold := w.(auctions := w.auctions - {id});
      var paid := AddToWallet(sold, buyer, -price);
      NothingChanged(w, sold);
      PaymentOnly(sold, buyer, -price);
      FortunesThenFortunes(w, sold, paid);
      PaymentOnly(paid, w.auctions[id].seller, price - Tax(price));
      FortunesThenFortunes(w, paid, w');
    }
  }

  lemma ListingOnly(w: World, seller: Id, startPrice: int, buyoutPrice: Option<int>, now: int, newId: Id)
    ensures OnlyFortunes(w, DoCreateListing(w, seller, startPrice, buyoutPrice, now, newId).0)
  {
    hide OnlyFortunes, CurrentWindow, Grows, SameArena, SameSwitches, OnlyPlayers;
    var (w', r) := DoCreateListing(w, seller, startPrice, buyoutPrice, now, newId);
    if r == Listed {
      OneChanged(w, w', seller, w.players[seller].(wallet := w.players[seller].wallet - LISTING_FEE));
    } else {
      NothingChanged(w, w');
    }
  }

  lemma MarketOnly(w: World, e: Event)
    requires MarketEvent(e)
    ensures OnlyFortunes(w, MarketStep(w, e).0)
  {
    hide OnlyFortunes, DoCreateListing, DoBuyout, Grows, SameArena, SameSwitches;
    match e
    case CreateListing(seller, startPrice, buyoutPrice, now, newId) =>
      ListingOnly(w, seller, startPrice, buyoutPrice, now, newId);
    case PlaceBid(_, _, _, _) =>
      NothingChanged(w, MarketStep(w, e).0);
    case Buyout(buyer, listing) =>
      SaleOnly(w, buyer, listing);
  }

  lemma FinishOnly(w: World, id: Id, d: Duel)
    ensures OnlyFortunes(w, FinishDuel(w, id, d).0)
  {
    hide OnlyFortunes, AddToWallet, Defeated;
    var (winner, loser) := if d.leftHp > d.rightHp then (d.left, d.right) else (d.right, d.left);
    var over := w.(duels := w.duels - {id});
    var paid := AddToWallet(over, winner, 40);
    NothingChanged(w, over);
    PaymentOnly(over, winner, 40);
    FortunesThenFortunes(w, over, paid);
    DeathOnly(paid, loser);
    FortunesThenFortunes(w, paid, Defeated(paid, loser));
  }

  lemma DuelActionOnly(w: World, id: Id, actor: Id, action: Action, roll: int)
    ensures OnlyFortunes(w, DoDuelAction(w, id, actor, action, roll).0)
  {
    hide OnlyFortunes, AfterTurn, FinishDuel, Grows, SameNpcs, SameMarket, SameSwitches;
    if id in w.duels {
      FinishOnly(w, id, AfterTurn(w.duels[id], actor, action, roll));
    }
    var w' := DoDuelAction(w, id, actor, action, roll).0;
    if w'.players == w.players && w'.byUsername == w.byUsername && w'.dailyClaimed == w.dailyClaimed {
      NothingChanged(w, w');
    }
  }

  lemma DuelsOnly(w: World, e: Event)
    requires DuelEvent(e)
    ensures OnlyFortunes(w, DuelStep(w, e).0)
  {
    hide OnlyFortunes, DoDuelAction, Grows, SameNpcs, SameMarket, SameSwitches;
    match e
    case StartDuel(_, _, _) =>
      NothingChanged(w, DuelStep(w, e).0);
    case DuelAction(duel, actor, action, roll) =>
      DuelActionOnly(w, duel, actor, action, roll);
  }

  lemma VictoryOnly(w: World, player: Id, callsign: string)
    requires callsign in w.npcs
    ensures OnlyFortunes(w, NpcDefeated(w, player, callsign))
  {
    hide OnlyFortunes, AddToWallet, Successor, DefeatEntry, SuccessionEntry;
    var paid := AddToWallet(w, player, w.npcs[callsign].reward);
    PaymentOnly(w, player, w.npcs[callsign].reward);
    NothingChanged(paid, NpcDefeated(w, player, callsign));
    FortunesThenFortunes(w, paid, NpcDefeated(w, player, callsign));
  }

  lemma NpcsOnly(w: World, e: Event)
    requires NpcEvent(e)
    ensures OnlyFortunes(w, NpcStep(w, e).0)
  {
    hide OnlyFortunes, PlayerTurn, NpcTurn, NpcDefeated, Defeated, Grows;
    var w' := NpcStep(w, e).0;
    if e.NpcAction? && e.npcDuel in w.npcDuels && w.npcDuels[e.npcDuel].callsign in w.npcs {
      var over := w.(npcDuels := w.npcDuels - {e.npcDuel});
      NothingChanged(w, over);
      DeathOnly(over, e.player);
      FortunesThenFortunes(w, over, Defeated(over, e.player));
      VictoryOnly(over, e.player, w.npcDuels[e.npcDuel].callsign);
      FortunesThenFortunes(w, over, NpcDefeated(over, e.player, w.npcDuels[e.npcDuel].callsign));
    }
    if w'.players == w.players && w'.byUsername == w.byUsername && w'.dailyClaimed == w.dailyClaimed {
      NothingChanged(w, w');
    }
  }

  /** Every step of the market, of a duel or against an NPC touches players' fortunes only. */
  lemma StepOnlyFortunes(w: World, e: Event)
    requires MarketEvent(e) || DuelEvent(e) || NpcEvent(e)
    ensures OnlyFortunes(w, Step(w, e).0)
  {
    hide MarketStep, DuelStep, NpcStep, OnlyFortunes, Grows, SameArena, SameMarket, SameSwitches;
    if MarketEvent(e) {
      MarketOnly(w, e);
    } else if DuelEvent(e) {
      DuelsOnly(w, e);
    } else {
      NpcsOnly(w, e);
    }
  }
}
