/** Where money comes from and goes to, over whole runs: what each step makes and destroys, and
    when wallets stay out of debt. */
module Money {
  import opened Base
  import opened World

  /** The sum of all wallets. */
  ghost function Total(players: map<Id, Player>): int
    decreases |players|
  {
    if players == map[] then 0
    else
      var id :| id in players;
      players[id].wallet + Total(players - {id})
  }

  lemma {:induction false} TotalWithout(players: map<Id, Player>, id: Id)
    requires id in players
    ensures Total(players) == players[id].wallet + Total(players - {id})
    decreases |players|
  {
    var first :| first in players && Total(players) == players[first].wallet + Total(players - {first});
    if first != id {
      TotalWithout(players - {first}, id);
      TotalWithout(players - {id}, first);
      assert players - {first} - {id} == players - {id} - {first};
    }
  }

  lemma TotalUpdated(players: map<Id, Player>, id: Id, p: Player)
    ensures Total(players[id := p])
         == Total(players) + p.wallet - (if id in players then players[id].wallet else 0)
    ensures |players[id := p]| == |players| + (if id in players then 0 else 1)
  {
    hide Total;
    var players' := players[id := p];
    TotalWithout(players', id);
    if id in players {
      TotalWithout(players, id);
      assert players' - {id} == players - {id};
      assert players'.Keys == players.Keys;
    } else {
      assert players' - {id} == players;
      assert players'.Keys == players.Keys + {id};
    }
  }

  // Invariants

  /** Every listing's seller exists, so no sale loses money. */
  ghost predicate SellersExist(w: World) {
    forall id | id in w.auctions :: w.auctions[id].seller in w.players
  }

  lemma MarketKeepsSellers(w: World, e: Event)
    requires SellersExist(w) && MarketEvent(e)
    ensures SellersExist(MarketStep(w, e).0)
  {
    var w' := MarketStep(w, e).0;
    forall id | id in w'.auctions
      ensures w'.auctions[id].seller in w'.players
    {
      assert id in w.auctions ==> w.auctions[id].seller in w.players;
    }
  }

  lemma StepKeepsSellers(w: World, e: Event)
    requires SellersExist(w)
    ensures SellersExist(Step(w, e).0)
  {
    hide AccountStep, MarketStep, DuelStep, NpcStep, ModeStep;
    if MarketEvent(e) {
      MarketKeepsSellers(w, e);
    }
  }

  // What each step makes and destroys

  /** The prize for the NPC that a duel is fought against, if the player exists. */
  function Prize(w: World, e: Event): int {
    if e.NpcAction? && e.player in w.players && e.npcDuel in w.npcDuels && w.npcDuels[e.npcDuel].callsign in w.npcs
    then w.npcs[w.npcDuels[e.npcDuel].callsign].reward else 0
  }

  /** Money the world creates: daily and style rewards, and prizes for won duels. */
  function Minted(w: World, e: Event): int {
    match Step(w, e).1
    case Reward(amount) => amount
    case DuelOver(winner, _) => if winner in w.players then 40 else 0
    case NpcDuelOver(true) => Prize(w, e)
    case _ => 0
  }

  /** Money that leaves the world: the listing fee, and the tax on a sale. */
  function Burned(w: World, e: Event): int {
    match Step(w, e).1
    case Listed => LISTING_FEE
    case Sold(price) => Tax(price)
    case _ => 0
  }

  /** The balance of one step: wallets change by what new players bring, plus what is made,
      minus what is destroyed. */
  ghost predicate Balanced(w: World, w': World, made: int, destroyed: int) {
    Total(w'.players) == Total(w.players) + 500 * (|w'.players| - |w.players|) + made - destroyed
  }

  lemma SameWalletBalanced(w: World, w': World, id: Id, p: Player)
    requires id in w.players && w'.players == w.players[id := p] && p.wallet == w.players[id].wallet
    ensures Balanced(w, w', 0, 0)
  {
    hide Total;
    TotalUpdated(w.players, id, p);
  }

  lemma AddBalanced(w: World, id: Id, amount: int)
    ensures Balanced(w, AddToWallet(w, id, amount), if id in w.players then amount else 0, 0)
    ensures AddToWallet(w, id, amount).players.Keys == w.players.Keys
    ensures |AddToWallet(w, id, amount).players| == |w.players|
  {
    hide Total;
    if id in w.players {
      TotalUpdated(w.players, id, w.players[id].(wallet := w.players[id].wallet + amount));
    }
  }

  lemma DefeatedBalanced(w: World, id: Id)
    ensures Balanced(w, Defeated(w, id), 0, 0) && |Defeated(w, id).players| == |w.players|
  {
    hide Total;
    if id in w.players {
      TotalUpdated(w.players, id, Died(w.players[id]));
    }
  }

  lemma LoginBalanced(w: World, username: string, remoteIp: string, offered: set<string>, newId: Id)
    requires IdsIssued(w) && Fresh(w, newId)
    ensures Balanced(w, DoLogin(w, username, remoteIp, offered, newId).0, 0, 0)
    ensures DoLogin(w, username, remoteIp, offered, newId).1 in {Done, Refused}
  {
    var candidates := if username in w.byUsername then w.byUsername[username] else [];
    var name := username + "@" + remoteIp;
    var selected := FirstWithKey(w, candidates, offered);
    if selected.Some? || candidates != [] {
      SeeBalanced(w, if selected.Some? then selected.value else candidates[0], name, offered);
    } else {
      var p := NewPlayer(username, name);
      TotalUpdated(w.players, newId, p);
      SeeBalanced(w.(players := w.players[newId := p], byUsername := w.byUsername[username := [newId]],
                     issued := w.issued + {newId}), newId, name, offered);
    }
  }

  lemma SeeBalanced(w: World, id: Id, name: string, offered: set<string>)
    ensures Balanced(w, SeePlayer(w, id, name, offered).0, 0, 0)
    ensures |SeePlayer(w, id, name, offered).0.players| == |w.players|
  {
    hide Total;
    if id in w.players {
      TotalUpdated(w.players, id, w.players[id].(displayName := name, observed := w.players[id].observed + offered));
    }
  }

  function Paid(r: Response): int {
    if r.Reward? then r.amount else 0
  }

  lemma DailyBalanced(w: World, id: Id, day: int)
    ensures Balanced(w, DoClaimDaily(w, id, day).0, Paid(DoClaimDaily(w, id, day).1), 0)
    ensures DoClaimDaily(w, id, day).1.Reward? || DoClaimDaily(w, id, day).1.Refused?
  {
    hide NextStreak, Min;
    if id in w.players {
      TotalUpdated(w.players, id, DoClaimDaily(w, id, day).0.players[id]);
    }
  }

  lemma StyleBalanced(w: World, id: Id, day: int, reward: nat)
    ensures Balanced(w, DoStyleBonus(w, id, day, reward).0, Paid(DoStyleBonus(w, id, day, reward).1), 0)
    ensures DoStyleBonus(w, id, day, reward).1.Reward? || DoStyleBonus(w, id, day, reward).1.Refused?
  {
    if id in w.players {
      TotalUpdated(w.players, id, DoStyleBonus(w, id, day, reward).0.players[id]);
    }
  }

  lemma PlainBalanced(w: World, e: Event)
    requires e.RegisterKey? || e.CompleteMission? || e.Ban? || e.SetTier?
    ensures Balanced(w, AccountStep(w, e).0, 0, 0)
    ensures AccountStep(w, e).1.Refused? || AccountStep(w, e).1.Done?
  {
    hide Balanced, Grows, SameArena, SameMarket, SameSwitches, OnlyPlayers;
    var w' := AccountStep(w, e).0;
    if w' == w {
      SamePlayersBalanced(w, w');
    } else {
      SameWalletBalanced(w, w', e.player, w'.players[e.player]);
    }
  }

  lemma AccountBalanced(w: World, e: Event)
    requires IdsIssued(w) && Enabled(w, e) && AccountEvent(e)
    ensures Balanced(w, AccountStep(w, e).0, Paid(AccountStep(w, e).1), 0)
    ensures AccountStep(w, e).1.Refused? || AccountStep(w, e).1.Done? || AccountStep(w, e).1.Reward?
  {
    hide DoLogin, DoClaimDaily, DoStyleBonus, Total, Grows, SameArena, SameMarket, SameSwitches;
    if e.RegisterKey? || e.CompleteMission? || e.Ban? || e.SetTier? {
      hide Balanced;
      PlainBalanced(w, e);
    } else if e.Login? {
      LoginBalanced(w, e.username, e.remoteIp, e.offered, e.newId);
    } else if e.ClaimDaily? {
      DailyBalanced(w, e.player, e.day);
    } else if e.StyleBonus? {
      StyleBalanced(w, e.player, e.day, e.reward);
    }
  }

  lemma ListingBalanced(w: World, seller: Id, startPrice: int, buyoutPrice: Option<int>, now: int, newId: Id)
    ensures var (w', r) := DoCreateListing(w, seller, startPrice, buyoutPrice, now, newId);
            && (r.Listed? || r.Refused?)
            && Balanced(w, w', 0, if r.Listed? then LISTING_FEE else 0)
  {
    hide Total;
    var (w', r) := DoCreateListing(w, seller, startPrice, buyoutPrice, now, newId);
    if r.Listed? {
      TotalUpdated(w.players, seller, w'.players[seller]);
    }
  }

  lemma SaleBalanced(w: World, buyer: Id, id: Id)
    requires SellersExist(w)
    ensures var (w', r) := DoBuyout(w, buyer, id);
            && (r.Sold? || r.Refused?)
            && Balanced(w, w', 0, if r.Sold? then Tax(r.price) else 0)
  {
    hide AddToWallet, Tax, Total;
    if DoBuyout(w, buyer, id).1.Sold? {
      var price := w.auctions[id].buyout.value;
      var w1 := w.(auctions := w.auctions - {id});
      AddBalanced(w1, buyer, -price);
      AddBalanced(AddToWallet(w1, buyer, -price), w.auctions[id].seller, price - Tax(price));
    }
  }

  lemma MarketBalanced(w: World, e: Event)
    requires SellersExist(w) && MarketEvent(e)
    ensures var (w', r) := MarketStep(w, e);
            && (r.Listed? || r.Sold? || r.Done? || r.Refused?)
            && Balanced(w, w', 0, if r.Listed? then LISTING_FEE else if r.Sold? then Tax(r.price) else 0)
  {
    hide DoCreateListing, DoBuyout;
    if e.CreateListing? {
      ListingBalanced(w, e.seller, e.startPrice, e.buyoutPrice, e.now, e.newId);
    } else if e.Buyout? {
      SaleBalanced(w, e.buyer, e.listing);
    }
  }

  lemma FinishBalanced(w: World, id: Id, d: Duel)
    ensures var (w', r) := FinishDuel(w, id, d);
            r.DuelOver? && Balanced(w, w', if r.winner in w.players then 40 else 0, 0)
  {
    hide Total;
    var DuelOver(winner, loser) := FinishDuel(w, id, d).1;
    var w1 := w.(duels := w.duels - {id});
    AddBalanced(w1, winner, 40);
    DefeatedBalanced(AddToWallet(w1, winner, 40), loser);
  }

  lemma DuelBalanced(w: World, e: Event)
    requires DuelEvent(e)
    ensures var (w', r) := DuelStep(w, e);
            && (r.DuelOver? || r.Done? || r.Refused?)
            && Balanced(w, w', if r.DuelOver? && r.winner in w.players then 40 else 0, 0)
  {
    hide Total;
    hide FinishDuel, Struck, Damage;
    if e.DuelAction? && e.duel in w.duels {
      var d := Struck(w.duels[e.duel], e.actor == w.duels[e.duel].left, e.action, e.roll).(lastActor := Some(e.actor));
      FinishBalanced(w, e.duel, d);
    }
  }

  lemma WonBalanced(w: World, player: Id, callsign: string)
    requires callsign in w.npcs
    ensures Balanced(w, NpcDefeated(w, player, callsign), if player in w.players then w.npcs[callsign].reward else 0, 0)
  {
    hide Total;
    AddBalanced(w, player, w.npcs[callsign].reward);
  }

  lemma NpcActionBalanced(w: World, e: Event)
    requires e.NpcAction?
    ensures var (w', r) := DoNpcAction(w, e.npcDuel, e.player, e.action, e.roll, e.npcDefends, e.npcRoll);
            && (r.NpcDuelOver? || r.Done? || r.Refused?)
            && Balanced(w, w', if r == NpcDuelOver(true) then Prize(w, e) else 0, 0)
  {
    hide Balanced, NpcDefeated, Defeated, PlayerTurn, NpcTurn, Grows, SameMarket, SameSwitches, OnlyPlayers;
    var (w', r) := DoNpcAction(w, e.npcDuel, e.player, e.action, e.roll, e.npcDefends, e.npcRoll);
    if r.NpcDuelOver? {
      var over := w.(npcDuels := w.npcDuels - {e.npcDuel});
      if r.playerWon {
        WonBalanced(over, e.player, w.npcDuels[e.npcDuel].callsign);
        BalancedFrom(w, over, w', Prize(w, e));
      } else {
        DefeatedBalanced(over, e.player);
        BalancedFrom(w, over, w', 0);
      }
    } else {
      SamePlayersBalanced(w, w');
    }
  }

  lemma NpcBalanced(w: World, e: Event)
    requires NpcEvent(e)
    ensures var (w', r) := NpcStep(w, e);
            && (r.NpcDuelOver? || r.Done? || r.Refused?)
            && Balanced(w, w', if r == NpcDuelOver(true) then Prize(w, e) else 0, 0)
  {
    hide Balanced, DoNpcAction, Grows, SameMarket, SameSwitches;
    if e.NpcAction? {
      NpcActionBalanced(w, e);
    } else {
      SamePlayersBalanced(w, NpcStep(w, e).0);
    }
  }

  lemma BalancedFrom(w: World, over: World, w': World, made: int)
    requires over.players == w.players && Balanced(over, w', made, 0)
    ensures Balanced(w, w', made, 0)
  {
  }

  lemma SamePlayersBalanced(w: World, w': World)
    requires w'.players == w.players
    ensures Balanced(w, w', 0, 0)
  {
  }

  lemma SetModeBalanced(w: World, id: Id, mode: Mode)
    ensures Balanced(w, SetMode(w, id, mode).0, 0, 0)
    ensures SetMode(w, id, mode).1.Done? || SetMode(w, id, mode).1.Refused?
  {
    if id in w.players {
      TotalUpdated(w.players, id, w.players[id].(mode := mode));
    }
  }

  lemma ModeBalanced(w: World, e: Event)
    requires ModeEvent(e)
    ensures Balanced(w, ModeStep(w, e).0, 0, 0)
    ensures ModeStep(w, e).1.Done? || ModeStep(w, e).1.Refused?
  {
    hide SetMode;
    if e.SwitchInstall? && e.call in w.switches {
      SetModeBalanced(w.(switches := w.switches - {e.call}), w.switches[e.call].player, NetCity);
    } else if e.PlainSwitch? {
      SetModeBalanced(w, e.player, e.mode);
    }
  }

  lemma StepBalanced(w: World, e: Event)
    requires IdsIssued(w) && SellersExist(w) && Enabled(w, e)
    ensures Balanced(w, Step(w, e).0, Minted(w, e), Burned(w, e))
  {
    hide AccountStep, MarketStep, DuelStep, NpcStep, ModeStep, Balanced;
    if AccountEvent(e) {
      AccountBalanced(w, e);
    } else if MarketEvent(e) {
      MarketBalanced(w, e);
    } else if DuelEvent(e) {
      DuelBalanced(w, e);
    } else if NpcEvent(e) {
      NpcBalanced(w, e);
    } else {
      ModeBalanced(w, e);
    }
  }

  // Whole runs

  lemma {:induction false} RunInvariants(ws: seq<World>, es: seq<Event>, n: nat)
    requires IsRun(ws, es) && n <= |es|
    ensures IdsIssued(ws[n]) && SellersExist(ws[n])
  {
    if n > 0 {
      RunInvariants(ws, es, n - 1);
      assert Follows(ws, es, n - 1);
      StepKeepsSellers(ws[n - 1], es[n - 1]);
    }
  }

  ghost function MintedBefore(ws: seq<World>, es: seq<Event>, n: nat): int
    requires |ws| == |es| + 1 && n <= |es|
  {
    if n == 0 then 0 else MintedBefore(ws, es, n - 1) + Minted(ws[n - 1], es[n - 1])
  }

  ghost function BurnedBefore(ws: seq<World>, es: seq<Event>, n: nat): int
    requires |ws| == |es| + 1 && n <= |es|
  {
    if n == 0 then 0 else BurnedBefore(ws, es, n - 1) + Burned(ws[n - 1], es[n - 1])
  }

  /** At every point of every run: all wallets, and all that was burned, add up to 500 for each
      player and all that was minted. Prices of either sign and buying one's own listing are
      included. */
  lemma {:induction false} MoneyConserved(ws: seq<World>, es: seq<Event>, n: nat)
    requires IsRun(ws, es) && n <= |es|
    ensures Total(ws[n].players) + BurnedBefore(ws, es, n) == 500 * |ws[n].players| + MintedBefore(ws, es, n)
  {
    hide Step, Minted, Burned, Enabled;
    if n > 0 {
      hide Total, IdsIssued, SellersExist;
      MoneyConserved(ws, es, n - 1);
      RunInvariants(ws, es, n - 1);
      assert Follows(ws, es, n - 1);
      StepBalanced(ws[n - 1], es[n - 1]);
    }
  }

  // No debts

  predicate FairPrice(price: Option<int>) {
    price.Some? ==> price.value >= 0
  }

  ghost predicate NoDebts(w: World) {
    && (forall id | id in w.players :: w.players[id].wallet >= 0)
    && (forall id | id in w.auctions :: FairPrice(w.auctions[id].buyout))
    && (forall c | c in w.npcs :: w.npcs[c].reward >= 0)
  }

  lemma TaxBounds(price: int)
    requires price >= 0
    ensures 0 <= Tax(price) <= price
  {
  }

  lemma AddKeepsNoDebts(w: World, id: Id, amount: int)
    requires NoDebts(w) && (amount < 0 && id in w.players ==> w.players[id].wallet + amount >= 0)
    ensures NoDebts(AddToWallet(w, id, amount))
  {
  }

  lemma DefeatedKeepsNoDebts(w: World, id: Id)
    requires NoDebts(w)
    ensures NoDebts(Defeated(w, id))
  {
  }

  lemma SaleKeepsNoDebts(w: World, buyer: Id, id: Id)
    requires NoDebts(w)
    ensures NoDebts(DoBuyout(w, buyer, id).0)
  {
    hide AddToWallet, Tax;
    if DoBuyout(w, buyer, id).1.Sold? {
      var price := w.auctions[id].buyout.value;
      TaxBounds(price);
      var w1 := w.(auctions := w.auctions - {id});
      assert NoDebts(w1);
      AddKeepsNoDebts(w1, buyer, -price);
      AddKeepsNoDebts(AddToWallet(w1, buyer, -price), w.auctions[id].seller, price - Tax(price));
    }
  }

  lemma RicherKeepsNoDebts(w: World, w': World, id: Id)
    requires NoDebts(w) && SameMarket(w, w') && SameArena(w, w')
    requires w'.players == w.players
          || (id in w'.players && w'.players == w.players[id := w'.players[id]]
              && (w'.players[id].wallet >= 0
                  || (id in w.players && w'.players[id].wallet >= w.players[id].wallet)))
    ensures NoDebts(w')
  {
  }

  lemma SeeKeepsNoDebts(w: World, id: Id, name: string, offered: set<string>)
    requires NoDebts(w)
    ensures NoDebts(SeePlayer(w, id, name, offered).0)
  {
  }

  lemma LoginKeepsNoDebts(w: World, username: string, remoteIp: string, offered: set<string>, newId: Id)
    requires NoDebts(w)
    ensures NoDebts(DoLogin(w, username, remoteIp, offered, newId).0)
  {
    hide SeePlayer, FirstWithKey;
    var candidates := if username in w.byUsername then w.byUsername[username] else [];
    var name := username + "@" + remoteIp;
    var selected := FirstWithKey(w, candidates, offered);
    if selected.Some? || candidates != [] {
      SeeKeepsNoDebts(w, if selected.Some? then selected.value else candidates[0], name, offered);
    } else {
      var w1 := w.(players := w.players[newId := NewPlayer(username, name)],
                   byUsername := w.byUsername[username := [newId]], issued := w.issued + {newId});
      RicherKeepsNoDebts(w, w1, newId);
      SeeKeepsNoDebts(w1, newId, name, offered);
    }
  }

  lemma RewardKeepsNoDebts(w: World, e: Event)
    requires NoDebts(w) && (e.ClaimDaily? || e.StyleBonus?)
    ensures NoDebts(AccountStep(w, e).0)
  {
    hide NoDebts;
    RicherKeepsNoDebts(w, AccountStep(w, e).0, e.player);
  }

  lemma AccountKeepsNoDebts(w: World, e: Event)
    requires NoDebts(w) && AccountEvent(e)
    ensures NoDebts(AccountStep(w, e).0)
  {
    hide NoDebts, DoLogin, DoClaimDaily, DoStyleBonus;
    if e.Login? {
      LoginKeepsNoDebts(w, e.username, e.remoteIp, e.offered, e.newId);
    } else if e.ClaimDaily? || e.StyleBonus? {
      RewardKeepsNoDebts(w, e);
    } else {
      RicherKeepsNoDebts(w, AccountStep(w, e).0, e.player);
    }
  }

  lemma ListingKeepsNoDebts(w: World, e: Event)
    requires NoDebts(w) && e.CreateListing? && FairPrice(e.buyoutPrice)
    ensures NoDebts(MarketStep(w, e).0)
  {
  }

  lemma MarketKeepsNoDebts(w: World, e: Event)
    requires NoDebts(w) && MarketEvent(e) && (e.CreateListing? ==> FairPrice(e.buyoutPrice))
    ensures NoDebts(MarketStep(w, e).0)
  {
    hide DoBuyout, DoCreateListing;
    if e.Buyout? {
      SaleKeepsNoDebts(w, e.buyer, e.listing);
    } else if e.CreateListing? {
      ListingKeepsNoDebts(w, e);
    }
  }

  lemma DuelKeepsNoDebts(w: World, e: Event)
    requires NoDebts(w) && DuelEvent(e)
    ensures NoDebts(DuelStep(w, e).0)
  {
    hide AddToWallet, Defeated, Struck, Damage;
    if DuelStep(w, e).1.DuelOver? {
      var DuelOver(winner, loser) := DuelStep(w, e).1;
      var w1 := w.(duels := w.duels - {e.duel});
      assert NoDebts(w1);
      AddKeepsNoDebts(w1, winner, 40);
      DefeatedKeepsNoDebts(AddToWallet(w1, winner, 40), loser);
    }
  }

  lemma WonKeepsNoDebts(w: World, player: Id, callsign: string)
    requires NoDebts(w) && callsign in w.npcs
    ensures NoDebts(NpcDefeated(w, player, callsign))
  {
    hide PoolName, DefeatEntry, SuccessionEntry, AddToWallet, SameMarket, OnlyPlayers;
    AddKeepsNoDebts(w, player, w.npcs[callsign].reward);
  }

  lemma NpcKeepsNoDebts(w: World, e: Event)
    requires NoDebts(w) && NpcEvent(e)
    ensures NoDebts(NpcStep(w, e).0)
  {
    hide NpcDefeated, Defeated, PlayerTurn, NpcTurn, Damage, Grows, SameMarket, SameSwitches;
    if e.NpcAction? && e.npcDuel in w.npcDuels && w.npcDuels[e.npcDuel].callsign in w.npcs {
      var w1 := w.(npcDuels := w.npcDuels - {e.npcDuel});
      assert NoDebts(w1);
      WonKeepsNoDebts(w1, e.player, w.npcDuels[e.npcDuel].callsign);
      DefeatedKeepsNoDebts(w1, e.player);
    }
  }

  lemma ModeKeepsNoDebts(w: World, e: Event)
    requires NoDebts(w) && ModeEvent(e)
    ensures NoDebts(ModeStep(w, e).0)
  {
  }

  lemma StepKeepsNoDebts(w: World, e: Event)
    requires NoDebts(w) && (e.CreateListing? ==> FairPrice(e.buyoutPrice))
    ensures NoDebts(Step(w, e).0)
  {
    hide AccountStep, MarketStep, DuelStep, NpcStep, ModeStep, NoDebts;
    if AccountEvent(e) {
      AccountKeepsNoDebts(w, e);
    } else if MarketEvent(e) {
      MarketKeepsNoDebts(w, e);
    } else if DuelEvent(e) {
      DuelKeepsNoDebts(w, e);
    } else if NpcEvent(e) {
      NpcKeepsNoDebts(w, e);
    } else {
      ModeKeepsNoDebts(w, e);
    }
  }

  /** While nobody asks a negative buyout price, no wallet is ever negative. */
  lemma {:induction false} FairRunsHaveNoDebts(ws: seq<World>, es: seq<Event>, n: nat)
    requires IsRun(ws, es) && n <= |es|
    requires forall i | 0 <= i < n && es[i].CreateListing? :: FairPrice(es[i].buyoutPrice)
    ensures NoDebts(ws[n])
  {
    if n == 0 {
      assert forall c | c in ws[0].npcs :: GoodSeed(ws[0].npcs[c]);
    } else {
      hide Step;
      FairRunsHaveNoDebts(ws, es, n - 1);
      assert Follows(ws, es, n - 1);
      StepKeepsNoDebts(ws[n - 1], es[n - 1]);
    }
  }

  /** All buyout prices asked in a run are fair, or exactly `price`. */
  ghost predicate PricesFairOr(es: seq<Event>, price: int) {
    forall i | 0 <= i < |es| && es[i].CreateListing? ::
      FairPrice(es[i].buyoutPrice) || es[i].buyoutPrice == Some(price)
  }

  /** However a price is used, alone or beside fair ones, nobody ends up in debt. */
  ghost predicate SafePrice(npcs: map<string, Npc>, missions: set<string>, price: int) {
    forall ws: seq<World>, es: seq<Event>, n: nat |
      IsRun(ws, es) && ws[0] == Init(npcs, missions) && PricesFairOr(es, price) && n < |ws| ::
      forall id | id in ws[n].players :: ws[n].players[id].wallet >= 0
  }

  /** The six calls that turn any negative price into a debt: player 0 offers something at that
      price, spends all it has at player 1's auction, and player 1 takes the offer. */
  function DebtEvents(price: int): seq<Event> {
    [Login("a", "ip", {}, 0), Login("b", "ip", {}, 1),
     CreateListing(0, PRICE_FLOOR, Some(price), 0, 2), CreateListing(1, PRICE_FLOOR, Some(490), 0, 3),
     Buyout(0, 3), Buyout(1, 2)]
  }

  lemma LoginOf(w: World, username: string, id: Id)
    requires username !in w.byUsername
    ensures DoLogin(w, username, "ip", {}, id).0
         == w.(players := w.players[id := NewPlayer(username, username + "@" + "ip")],
               byUsername := w.byUsername[username := [id]], issued := w.issued + {id})
  {
    var p := NewPlayer(username, username + "@" + "ip");
    assert p.observed + {} == p.observed;
    assert w.players[id := p][id := p] == w.players[id := p];
  }

  /** Before the two sales: both players have paid one fee, and both offers stand. */
  ghost predicate BeforeSales(w: World, price: int) {
    && w.players.Keys == {0, 1} && w.players[0].wallet == 490 && w.players[1].wallet == 490
    && 2 in w.auctions && w.auctions[2].seller == 0 && w.auctions[2].buyout == Some(price)
    && 3 in w.auctions && w.auctions[3].seller == 1 && w.auctions[3].buyout == Some(490)
  }

  lemma FirstSale(w: World, price: int)
    requires BeforeSales(w, price)
    ensures var w' := DoBuyout(w, 0, 3).0;
            && w'.players.Keys == {0, 1} && w'.players[0].wallet == 0 && w'.players[1].wallet == 966
            && 2 in w'.auctions && w'.auctions[2] == w.auctions[2]
  {
    assert Tax(490) == 14;
  }

  lemma SecondSale(w: World, price: int)
    requires price < 0
    requires w.players.Keys == {0, 1} && w.players[0].wallet == 0 && w.players[1].wallet == 966
    requires 2 in w.auctions && w.auctions[2].seller == 0 && w.auctions[2].buyout == Some(price)
    ensures 0 in DoBuyout(w, 1, 2).0.players && DoBuyout(w, 1, 2).0.players[0].wallet < 0
  {
    assert price - Tax(price) < 0;
  }

  lemma TwoListings(w: World, price: int)
    requires w.players.Keys == {0, 1} && w.players[0].wallet == 500 && w.players[1].wallet == 500
    requires w.listingWindows == map[]
    ensures var w1 := DoCreateListing(w, 0, PRICE_FLOOR, Some(price), 0, 2).0;
            BeforeSales(DoCreateListing(w1, 1, PRICE_FLOOR, Some(490), 0, 3).0, price)
    ensures DoCreateListing(w, 0, PRICE_FLOOR, Some(price), 0, 2).0.issued == w.issued + {2}
    ensures var w1 := DoCreateListing(w, 0, PRICE_FLOOR, Some(price), 0, 2).0;
            DoCreateListing(w1, 1, PRICE_FLOOR, Some(490), 0, 3).0.issued == w.issued + {2, 3}
  {
  }

  /** The six calls one after the other, by name. */
  ghost predicate DebtChain(ws: seq<World>, price: int) {
    && |ws| == 7
    && ws[1] == DoLogin(ws[0], "a", "ip", {}, 0).0
    && ws[2] == DoLogin(ws[1], "b", "ip", {}, 1).0
    && ws[3] == DoCreateListing(ws[2], 0, PRICE_FLOOR, Some(price), 0, 2).0
    && ws[4] == DoCreateListing(ws[3], 1, PRICE_FLOOR, Some(490), 0, 3).0
    && ws[5] == DoBuyout(ws[4], 0, 3).0
    && ws[6] == DoBuyout(ws[5], 1, 2).0
  }

  lemma DebtStepsChain(w: World, price: int)
    ensures DebtChain(StatesFrom(w, DebtEvents(price)), price)
  {
    hide DoLogin, DoCreateListing, DoBuyout, StatesFrom;
    var es := DebtEvents(price);
    var ws := StatesFrom(w, es);
    assert Stepped(ws, es, 0);
    assert Stepped(ws, es, 1);
    assert Stepped(ws, es, 2);
    assert Stepped(ws, es, 3);
    assert Stepped(ws, es, 4);
    assert Stepped(ws, es, 5);
  }

  lemma DebtChainEnds(ws: seq<World>, npcs: map<string, Npc>, missions: set<string>, price: int)
    requires DebtChain(ws, price) && price < 0 && ws[0] == Init(npcs, missions)
    ensures forall i | 0 <= i < 6 :: Enabled(ws[i], DebtEvents(price)[i])
    ensures 0 in ws[6].players && ws[6].players[0].wallet < 0
  {
    hide DoLogin, DoCreateListing, DoBuyout;
    LoginOf(ws[0], "a", 0);
    assert "b" != "a" by { assert "b"[0] != "a"[0]; }
    LoginOf(ws[1], "b", 1);
    TwoListings(ws[2], price);
    FirstSale(ws[4], price);
    SecondSale(ws[5], price);
  }

  /** The six calls form a run that ends with player 0 in debt. */
  lemma NegativePriceMakesDebt(npcs: map<string, Npc>, missions: set<string>, price: int)
    requires GoodSeeds(npcs) && price < 0
    ensures var ws := StatesFrom(Init(npcs, missions), DebtEvents(price));
            && IsRun(ws, DebtEvents(price))
            && 0 in ws[6].players && ws[6].players[0].wallet < 0
  {
    hide Step, StatesFrom, DebtChain;
    var ws, es := StatesFrom(Init(npcs, missions), DebtEvents(price)), DebtEvents(price);
    DebtStepsChain(Init(npcs, missions), price);
    DebtChainEnds(ws, npcs, missions, price);
    forall i | 0 <= i < |es|
      ensures Follows(ws, es, i)
    {
      assert Stepped(ws, es, i);
    }
  }

  /** A buyout price is safe exactly when it is not negative: the sign check that
      `create_listing` lacks is all that is missing. */
  lemma SafePriceIffFair(npcs: map<string, Npc>, missions: set<string>, price: int)
    requires GoodSeeds(npcs)
    ensures SafePrice(npcs, missions, price) <==> price >= 0
  {
    hide Step, DebtEvents, StatesFrom;
    if price >= 0 {
      forall ws: seq<World>, es: seq<Event>, n: nat |
        IsRun(ws, es) && ws[0] == Init(npcs, missions) && PricesFairOr(es, price) && n < |ws|
        ensures forall id | id in ws[n].players :: ws[n].players[id].wallet >= 0
      {
        FairRunsHaveNoDebts(ws, es, n);
      }
    } else {
      NegativePriceMakesDebt(npcs, missions, price);
      DebtPrices(price);
      var ws, es := StatesFrom(Init(npcs, missions), DebtEvents(price)), DebtEvents(price);
      assert !(forall id | id in ws[6].players :: ws[6].players[id].wallet >= 0);
    }
  }

  lemma DebtPrices(price: int)
    ensures |DebtEvents(price)| == 6 && PricesFairOr(DebtEvents(price), price)
  {
  }
}
