/** The service itself: the world's tables as fields that its methods edit in place, each method
    one locked section and each refining the step of the same name. */
module WorldService {
  import opened Base
  import opened World

  lemma ListingStep(w: World, seller: Id, startPrice: int, buyoutPrice: Option<int>, now: int, newId: Id)
    ensures Step(w, CreateListing(seller, startPrice, buyoutPrice, now, newId))
         == DoCreateListing(w, seller, startPrice, buyoutPrice, now, newId)
  {
    hide DoCreateListing;
  }

  class Service {
    var players: map<Id, Player>
    var byUsername: map<string, seq<Id>>
    var missions: set<string>
    var npcs: map<string, Npc>
    var npcDuels: map<Id, NpcDuel>
    var history: seq<HistoryEntry>
    var auctions: map<Id, Listing>
    var duels: map<Id, Duel>
    var dailyClaimed: set<(Id, int)>
    var listingWindows: map<Id, (int, nat)>
    var switches: map<Id, Switch>  // the locals of `mode_switch` calls under way
    ghost var issued: set<Id>

    ghost function State(): World
      reads this
    {
      World(players, byUsername, missions, npcs, npcDuels, history, auctions, duels, dailyClaimed,
            listingWindows, switches, issued)
    }

    /** The service is in the last state of a run. */
    ghost predicate Reached(ws: seq<World>, es: seq<Event>)
      reads this
    {
      IsRun(ws, es) && ws[|es|] == State()
    }

    /** Every call the methods below answer takes the run one step further, so that what holds of
        runs holds of the service. */
    twostate lemma CallExtendsRun(ws: seq<World>, es: seq<Event>, e: Event)
      requires old(Reached(ws, es)) && Enabled(old(State()), e) && State() == Step(old(State()), e).0
      ensures Reached(ws + [State()], es + [e])
    {
      RunGoesOn(ws, es, e);
    }

    constructor (npcs: map<string, Npc>, missions: set<string>)
      ensures State() == Init(npcs, missions)
      ensures GoodSeeds(npcs) ==> Reached([State()], [])
    {
      this.npcs, this.missions := npcs, missions;
      players, byUsername, npcDuels, history := map[], map[], map[], [];
      auctions, duels, dailyClaimed, listingWindows, switches := map[], map[], {}, map[], map[];
      issued := {};
    }

    // Accounts

    method Login(username: string, remoteIp: string, offered: set<string>, newId: Id) returns (r: Response)
      modifies this
      ensures (State(), r) == Step(old(State()), Event.Login(username, remoteIp, offered, newId))
    {
      var candidates := if username in byUsername then byUsername[username] else [];
      var selected: Option<Id> := None;
      var i := 0;
      while i < |candidates| && selected.None?
        invariant i <= |candidates| && State() == old(State())
        invariant FirstWithKey(State(), candidates, offered)
               == if selected.Some? then selected else FirstWithKey(State(), candidates[i..], offered)
        decreases |candidates| - i, selected.None?
      {
        var id := candidates[i];
        if id in players && players[id].registered * offered != {} {
          selected := Some(id);
        }
        i := i + 1;
      }
      var displayName := username + "@" + remoteIp;
      var playerId;
      if selected.Some? {
        playerId := selected.value;
      } else if candidates != [] {
        playerId := candidates[0];
      } else {
        players := players[newId := NewPlayer(username, displayName)];
        byUsername := byUsername[username := [newId]];
        issued := issued + {newId};
        playerId := newId;
      }
      if playerId !in players {
        return Refused;
      }
      var p := players[playerId];
      players := players[playerId := p.(displayName := displayName, observed := p.observed + offered)];
      return Done;
    }

    /** `key` is the line's fingerprint, if the line is a valid public key. */
    method RegisterKey(id: Id, key: Option<string>) returns (r: Response)
      modifies this`players
      ensures (State(), r) == Step(old(State()), Event.RegisterKey(id, key))
    {
      if key.None? {
        return Refused;
      }
      if id !in players {
        return Refused;
      }
      players := players[id := players[id].(registered := players[id].registered + {key.value})];
      return Done;
    }

    method CompleteMission(id: Id, code: string) returns (r: Response)
      modifies this`players
      ensures (State(), r) == Step(old(State()), Event.CompleteMission(id, code))
    {
      if code !in missions {
        return Refused;
      }
      if id !in players {
        return Refused;
      }
      players := players[id := players[id].(completed := players[id].completed + {code})];
      return Done;
    }

    method BanForever(id: Id) returns (r: Response)
      modifies this`players
      ensures (State(), r) == Step(old(State()), Event.Ban(id))
    {
      if id !in players {
        return Refused;
      }
      players := players[id := players[id].(banned := true)];
      return Done;
    }

    method SetTier(id: Id, tier: Tier) returns (r: Response)
      modifies this`players
      ensures (State(), r) == Step(old(State()), Event.SetTier(id, tier))
    {
      if id !in players {
        return Refused;
      }
      players := players[id := players[id].(tier := tier)];
      return Done;
    }

    // Rewards

    method ClaimDailyReward(id: Id, day: int) returns (r: Response)
      modifies this`players, this`dailyClaimed
      ensures (State(), r) == Step(old(State()), Event.ClaimDaily(id, day))
    {
      if (id, day) in dailyClaimed {
        return Reward(0);
      }
      if id !in players {
        return Refused;
      }
      var p := players[id];
      if p.streakDay.Some? {
        if p.streakDay.value + 1 == day {
          p := p.(streak := Min(p.streak + 1, 7));
        } else if p.streakDay.value != day {
          p := p.(streak := 1);
        }
      } else {
        p := p.(streak := 1);
      }
      p := p.(streakDay := Some(day));
      var reward := 50 + Min(p.streak * 15, 120);
      p := p.(wallet := p.wallet + reward);
      players := players[id := p];
      dailyClaimed := dailyClaimed + {(id, day)};
      return Reward(reward);
    }

    /** `reward` stands for the scaled score of the call. */
    method StyleBonus(id: Id, day: int, reward: nat) returns (r: Response)
      modifies this`players
      ensures (State(), r) == Step(old(State()), Event.StyleBonus(id, day, reward))
    {
      if id !in players {
        return Refused;
      }
      var p := players[id];
      if p.styleDay != Some(day) {
        p := p.(styleDay := Some(day), styleClaims := 0);
      }
      players := players[id := p];
      if p.styleClaims >= 5 {
        return Reward(0);
      }
      p := p.(styleClaims := p.styleClaims + 1, wallet := p.wallet + reward);
      players := players[id := p];
      assert players == old(players)[id := p];
      return Reward(reward);
    }

    // Auctions

    /** The limiter: the seller's window, restarted when it is over, takes one more or refuses. */
    method CountListing(seller: Id, now: int) returns (allowed: bool)
      modifies this`listingWindows
      ensures (var (start, count) := CurrentWindow(old(State()), seller, now);
               && allowed == (count < MAX_LISTINGS)
               && listingWindows == old(listingWindows)[seller := (start, if allowed then count + 1 else count)])
    {
      var window := if seller in listingWindows then listingWindows[seller] else (now, 0);
      if now - window.0 > WINDOW {
        window := (now, 0);
      }
      listingWindows := listingWindows[seller := window];
      if window.1 >= MAX_LISTINGS {
        return false;
      }
      listingWindows := listingWindows[seller := (window.0, window.1 + 1)];
      assert listingWindows == old(listingWindows)[seller := (window.0, window.1 + 1)];
      return true;
    }

    method CreateListing(seller: Id, startPrice: int, buyoutPrice: Option<int>, now: int, newId: Id)
      returns (r: Response)
      modifies this
      ensures (State(), r) == Step(old(State()), Event.CreateListing(seller, startPrice, buyoutPrice, now, newId))
    {
      hide Step, CurrentWindow, Grows, SameArena, SameSwitches;
      ListingStep(State(), seller, startPrice, buyoutPrice, now, newId);
      if startPrice < PRICE_FLOOR {
        return Refused;
      }
      if seller !in players {
        return Refused;
      }
      if players[seller].wallet < LISTING_FEE {
        return Refused;
      }
      var allowed := CountListing(seller, now);
      if !allowed {
        return Refused;
      }
      players := players[seller := players[seller].(wallet := players[seller].wallet - LISTING_FEE)];
      auctions := auctions[newId := Listing(seller, startPrice, buyoutPrice, now + 12 * 3600 * SECOND, None, None)];
      issued := issued + {newId};
      return Listed;
    }

    method PlaceBid(bidder: Id, id: Id, amount: int, now: int) returns (r: Response)
      modifies this`auctions
      ensures (State(), r) == Step(old(State()), Event.PlaceBid(bidder, id, amount, now))
    {
      if bidder !in players {
        return Refused;
      }
      if id !in auctions {
        return Refused;
      }
      var listing := auctions[id];
      if now > listing.expiresAt {
        return Refused;
      }
      var floor := if listing.highestBid.Some? then listing.highestBid.value else listing.startPrice;
      if amount <= floor {
        return Refused;
      }
      if players[bidder].wallet < amount {
        return Refused;
      }
      auctions := auctions[id := listing.(highestBid := Some(amount), highestBidder := Some(bidder))];
      return Done;
    }

    /** `get_mut` and an addition, when there is such a player. */
    method Pay(id: Id, amount: int)
      modifies this`players
      ensures State() == AddToWallet(old(State()), id, amount)
    {
      if id in players {
        players := players[id := players[id].(wallet := players[id].wallet + amount)];
      }
    }

    method Buyout(buyer: Id, id: Id) returns (r: Response)
      modifies this`players, this`auctions
      ensures (State(), r) == Step(old(State()), Event.Buyout(buyer, id))
    {
      if id !in auctions {
        return Refused;
      }
      var listing := auctions[id];
      if listing.buyout.None? {
        return Refused;
      }
      if buyer !in players {
        return Refused;
      }
      var price := listing.buyout.value;
      if players[buyer].wallet < price {
        return Refused;
      }
      auctions := auctions - {id};
      var tax := Tax(price);
      Pay(buyer, -price);
      Pay(listing.seller, price - tax);
      return Sold(price);
    }

    // Duels between players

    method StartDuel(left: Id, right: Id, newId: Id) returns (r: Response)
      modifies this`duels, this`issued
      ensures (State(), r) == Step(old(State()), Event.StartDuel(left, right, newId))
    {
      if left !in players || players[left].banned {
        return Refused;
      }
      if right !in players || players[right].banned {
        return Refused;
      }
      duels := duels[newId := Duel(left, right, 100, 100, false, false, None)];
      issued := issued + {newId};
      return Done;
    }

    method RecordDeath(id: Id)
      modifies this`players
      ensures State() == Defeated(old(State()), id)
    {
      if id in players {
        var p := players[id];
        p := p.(deaths := p.deaths + 1);
        if p.tier.Hardcore? && p.deaths >= 3 {
          p := p.(banned := true);
        }
        players := players[id := p];
      }
    }

    /** The actor's half of the source's borrow: which side's health and defence the action
        touches. */
    static method TakeTurn(d: Duel, actor: Id, action: Action, roll: int) returns (d': Duel)
      ensures d' == AfterTurn(d, actor, action, roll)
    {
      var actorIsLeft := actor == d.left;
      var defenderHp := if actorIsLeft then d.rightHp else d.leftHp;
      var attackerDefends := if actorIsLeft then d.leftDefending else d.rightDefending;
      var defenderDefends := if actorIsLeft then d.rightDefending else d.leftDefending;
      match action {
        case Defend => attackerDefends := true;
        case Attack =>
          var dmg := roll;
          if defenderDefends {
            dmg := Max(dmg / 2, 5);
            defenderDefends := false;
          }
          defenderHp := defenderHp - dmg;
          attackerDefends := false;
        case Script(nameLength) =>
          var dmg: int := 10 + nameLength % 17;
          if defenderDefends {
            dmg := Max(dmg / 2, 4);
            defenderDefends := false;
          }
          defenderHp := defenderHp - dmg;
          attackerDefends := false;
      }
      if actorIsLeft {
        d' := d.(rightHp := defenderHp, leftDefending := attackerDefends, rightDefending := defenderDefends);
      } else {
        d' := d.(leftHp := defenderHp, rightDefending := attackerDefends, leftDefending := defenderDefends);
      }
      d' := d'.(lastActor := Some(actor));
    }

    method DuelAction(id: Id, actor: Id, action: Action, roll: int) returns (r: Response)
      modifies this`players, this`duels
      ensures (State(), r) == Step(old(State()), Event.DuelAction(id, actor, action, roll))
    {
      hide AccountStep, MarketStep, NpcStep, ModeStep, Grows, SameNpcs, SameMarket, SameSwitches;
      hide AfterTurn, AddToWallet, Defeated;
      if id !in duels {
        return Refused;
      }
      if actor != duels[id].left && actor != duels[id].right {
        return Refused;
      }
      var duel := TakeTurn(duels[id], actor, action, roll);
      duels := duels[id := duel];
      if duel.leftHp <= 0 || duel.rightHp <= 0 {
        var winner, loser := duel.right, duel.left;
        if duel.leftHp > duel.rightHp {
          winner, loser := duel.left, duel.right;
        }
        duels := duels - {id};
        assert duels == old(duels) - {id};
        Pay(winner, 40);
        RecordDeath(loser);
        return DuelOver(winner, loser);
      }
      return Done;
    }

    // Duels against NPCs

    method StartNpcDuel(player: Id, callsign: string, newId: Id) returns (r: Response)
      modifies this`npcDuels, this`issued
      ensures (State(), r) == Step(old(State()), Event.StartNpcDuel(player, callsign, newId))
    {
      if callsign !in npcs {
        return Refused;
      }
      npcDuels := npcDuels[newId := NpcDuel(player, callsign, 100, npcs[callsign].ScaledHp(), false, false, false)];
      issued := issued + {newId};
      return Done;
    }

    static method TakePlayerTurn(d: NpcDuel, n: Npc, action: Action, roll: int) returns (d': NpcDuel)
      ensures d' == PlayerTurn(d, n, action, roll)
    {
      d' := d;
      if action.Defend? {
        d' := d'.(playerDefending := true);
      } else {
        var bonus := if d.bonusReady then n.bonusDamage else 0;
        var dmg := (if action.Attack? then roll else 10 + action.nameLength % 17) + bonus;
        if d'.npcDefending {
          dmg := Max(dmg / 2, 5);
          d' := d'.(npcDefending := false);
        }
        d' := d'.(npcHp := d'.npcHp - dmg, playerDefending := false, bonusReady := false);
      }
    }

    static method TakeNpcTurn(d: NpcDuel, npcDefends: bool, npcRoll: int) returns (d': NpcDuel)
      ensures d' == NpcTurn(d, npcDefends, npcRoll)
    {
      d' := d;
      if npcDefends {
        d' := d'.(npcDefending := true);
      } else {
        var dmg := npcRoll;
        if d'.playerDefending {
          dmg := Max(dmg / 2, 5);
          d' := d'.(playerDefending := false);
        }
        d' := d'.(playerHp := d'.playerHp - dmg);
      }
    }

    /** Reward, ledger entry, and succession. */
    method Succeed(player: Id, callsign: string)
      requires callsign in npcs
      modifies this`players, this`history, this`npcs
      ensures State() == NpcDefeated(old(State()), player, callsign)
    {
      hide AddToWallet;
      var n := npcs[callsign];
      Pay(player, n.reward);
      var defeatedBy := if player in players then players[player].displayName else "";
      history := history + [DefeatEntry(n, defeatedBy)];
      if n.hasSuccessors && n.pool != [] {
        n := n.(timesDefeated := n.timesDefeated + 1);
        n := n.(generation := n.generation + 1);
        n := n.(name := PoolName(n.pool, n.generation));
        npcs := npcs[callsign := n];
        history := history + [SuccessionEntry(n)];
      }
    }

    method NpcDuelAction(id: Id, player: Id, action: Action, roll: int, npcDefends: bool, npcRoll: int)
      returns (r: Response)
      modifies this`players, this`history, this`npcs, this`npcDuels
      ensures (State(), r) == Step(old(State()), Event.NpcAction(id, player, action, roll, npcDefends, npcRoll))
    {
      hide AccountStep, MarketStep, DuelStep, ModeStep, Grows, SameMarket, SameSwitches;
      hide PlayerTurn, NpcTurn, NpcDefeated, Defeated;
      if id !in npcDuels || npcDuels[id].player != player {
        return Refused;
      }
      var callsign := npcDuels[id].callsign;
      if callsign !in npcs {
        return Refused;
      }
      var duel := TakePlayerTurn(npcDuels[id], npcs[callsign], action, roll);
      npcDuels := npcDuels[id := duel];
      if duel.npcHp <= 0 {
        npcDuels := npcDuels - {id};
        assert npcDuels == old(npcDuels) - {id};
        Succeed(player, callsign);
        return NpcDuelOver(true);
      }
      duel := TakeNpcTurn(duel, npcDefends, npcRoll);
      npcDuels := npcDuels[id := duel];
      assert npcDuels == old(npcDuels)[id := duel];
      if duel.playerHp <= 0 {
        npcDuels := npcDuels - {id};
        assert npcDuels == old(npcDuels) - {id};
        RecordDeath(player);
        return NpcDuelOver(false);
      }
      return Done;
    }

    /** `solved` says whether the output contains the answer to the shell challenge. */
    method NpcDuelSolveBonus(id: Id, player: Id, solved: bool) returns (r: Response)
      modifies this`npcDuels
      ensures (State(), r) == Step(old(State()), Event.SolveBonus(id, player, solved))
    {
      if id !in npcDuels || npcDuels[id].player != player {
        return Refused;
      }
      if npcDuels[id].callsign !in npcs {
        return Refused;
      }
      if solved {
        npcDuels := npcDuels[id := npcDuels[id].(bonusReady := true)];
      }
      return Done;
    }

    // Mode switches

    /** The first lock: reads the keys the player has presented. */
    method ModeSwitchRead(player: Id, newId: Id) returns (r: Response)
      modifies this`switches, this`issued
      ensures (State(), r) == Step(old(State()), Event.SwitchRead(player, newId))
    {
      if player !in players {
        return Refused;
      }
      if players[player].banned {
        return Refused;
      }
      switches := switches[newId := Switch(player, players[player].observed, false)];
      issued := issued + {newId};
      return Done;
    }

    /** The second lock: `netcity_gate_reason`. */
    method ModeSwitchGate(call: Id) returns (r: Response)
      modifies this`switches
      ensures (State(), r) == Step(old(State()), Event.SwitchGate(call))
    {
      if call !in switches || switches[call].passed {
        return Refused;
      }
      var s := switches[call];
      var open := NetcityGateOpen(s.player, s.offered);
      if !open {
        switches := switches - {call};
        return Refused;
      }
      switches := switches[call := s.(passed := true)];
      return Done;
    }

    method NetcityGateOpen(id: Id, offered: set<string>) returns (open: bool)
      ensures open == GateOpen(State(), id, offered)
    {
      hide StarterCodes;
      if id !in players {
        return false;
      }
      var p := players[id];
      if KEYS_VAULT !in p.completed {
        return false;
      }
      if p.completed * StarterCodes() == {} {
        return false;
      }
      if p.registered == {} {
        return false;
      }
      if p.registered * offered == {} {
        return false;
      }
      return !p.banned;
    }

    /** The third lock of a switch to NetCity. */
    method ModeSwitchInstall(call: Id) returns (r: Response)
      modifies this`players, this`switches
      ensures (State(), r) == Step(old(State()), Event.SwitchInstall(call))
    {
      if call !in switches || !switches[call].passed {
        return Refused;
      }
      var player := switches[call].player;
      switches := switches - {call};
      r := InstallMode(player, NetCity);
    }

    method InstallMode(player: Id, mode: Mode) returns (r: Response)
      modifies this`players
      ensures (State(), r) == SetMode(old(State()), player, mode)
    {
      if player !in players {
        return Refused;
      }
      if players[player].banned {
        return Refused;
      }
      players := players[player := players[player].(mode := mode)];
      return Done;
    }

    /** A switch to any other mode takes the last lock only. */
    method ModeSwitchPlain(player: Id, mode: Mode) returns (r: Response)
      requires !mode.NetCity?
      modifies this`players
      ensures (State(), r) == Step(old(State()), Event.PlainSwitch(player, mode))
    {
      r := InstallMode(player, mode);
    }
  }
}
