/** A player's record, replayed from the calls and what they answered. */
module Records {
  import opened Base
  import opened World
  import opened Frames
  import opened Accounts
  import opened Auctions
  import opened Duels
  import opened Gate
  import opened SafeIntervals

  // What one call does to one record

  predicate LogsIn(e: Event, username: string) {
    e.Login? && e.username == username
  }

  predicate Registers(e: Event, id: Id) {
    e.RegisterKey? && e.player == id && e.key.Some?
  }

  predicate Completes(w: World, e: Event, id: Id) {
    e.CompleteMission? && e.player == id && e.code in w.missions
  }

  /** The call answers that the player has lost a duel. */
  predicate Loses(e: Event, r: Response, id: Id) {
    (e.DuelAction? && r.DuelOver? && r.loser == id) || (e.NpcAction? && r == NpcDuelOver(false) && e.player == id)
  }

  /** Three hundredths of a price, without the fraction. */
  function TaxOn(price: int): int {
    if price >= 0 then price * 3 / 100 else -(-price * 3 / 100)
  }

  /** What the answered call means for a player's wallet. */
  function Gain(w: World, e: Event, r: Response, id: Id): int {
    match r
    case Reward(amount) => if (e.ClaimDaily? || e.StyleBonus?) && e.player == id then amount else 0
    case Listed => if e.CreateListing? && e.seller == id then -10 else 0
    case Sold(price) =>
      if e.Buyout? && e.listing in w.auctions then
        (if e.buyer == id then -price else 0)
        + (if w.auctions[e.listing].seller == id then price - TaxOn(price) else 0)
      else 0
    case DuelOver(winner, _) => if winner == id then 40 else 0
    case NpcDuelOver(true) =>
      if e.NpcAction? && e.player == id && NpcAccepted(w, e) then w.npcs[w.npcDuels[e.npcDuel].callsign].reward else 0
    case _ => 0
  }

  /** The mode a call switches a player to, if it does. */
  function NewMode(w: World, e: Event, r: Response, id: Id): Option<Mode> {
    if r == Done && e.PlainSwitch? && e.player == id then Some(e.mode)
    else if r == Done && e.SwitchInstall? && e.call in w.switches && w.switches[e.call].player == id then Some(NetCity)
    else None
  }

  /** The record after the call, the counters of streaks and style aside. */
  function Recorded(p: Player, w: World, e: Event, r: Response, id: Id): Player {
    var deaths := p.deaths + if Loses(e, r, id) then 1 else 0;
    p.(displayName := if LogsIn(e, p.username) then p.username + "@" + e.remoteIp else p.displayName,
       tier := if e.SetTier? && e.player == id then e.tier else p.tier,
       mode := NewMode(w, e, r, id).GetOr(p.mode),
       deaths := deaths,
       banned := p.banned || (e.Ban? && e.player == id) || (Loses(e, r, id) && p.tier.Hardcore? && deaths >= 3),
       wallet := p.wallet + Gain(w, e, r, id),
       registered := if Registers(e, id) then p.registered + {e.key.value} else p.registered,
       observed := if LogsIn(e, p.username) then p.observed + e.offered else p.observed,
       completed := if Completes(w, e, id) then p.completed + {e.code} else p.completed)
  }

  /** Equal up to the counters of streaks and style. */
  predicate SameRecord(p: Player, q: Player) {
    p == q.(streak := p.streak, streakDay := p.streakDay, styleClaims := p.styleClaims, styleDay := p.styleDay)
  }

  lemma LoginRecord(w: World, e: Event, id: Id)
    requires NamesOk(w) && IdsIssued(w) && Enabled(w, e) && e.Login? && id in w.players
    ensures var w' := AccountStep(w, e).0;
            id in w'.players && SameRecord(w'.players[id], Recorded(w.players[id], w, e, Done, id))
  {
    hide AccountStep;
    LoginEffect(w, e);
    ListedIff(w, e.username, id);
  }

  lemma ListedIff(w: World, username: string, id: Id)
    requires NamesOk(w) && id in w.players
    ensures w.players[id].username == username <==> username in w.byUsername && w.byUsername[username] == [id]
  {
  }

  /** Calls that are none of the player's, or that are refused, leave the record as it is. */
  lemma NothingRecorded(p: Player, w: World, e: Event, r: Response, id: Id)
    requires !e.Login? && Gain(w, e, r, id) == 0 && NewMode(w, e, r, id).None? && !Loses(e, r, id)
    requires (e.SetTier? || e.Ban? || e.RegisterKey? || e.CompleteMission?) ==> e.player != id
    ensures Recorded(p, w, e, r, id) == p
  {
  }

  /** What a player's own calls mean for the record. */
  lemma OwnRecorded(p: Player, w: World, e: Event, r: Response, id: Id)
    ensures e.RegisterKey? && e.player == id ==>
              Recorded(p, w, e, Done, id)
              == if e.key.Some? then p.(registered := p.registered + {e.key.value}) else p
    ensures e.CompleteMission? && e.player == id && e.code in w.missions ==>
              Recorded(p, w, e, Done, id) == p.(completed := p.completed + {e.code})
    ensures e.Ban? && e.player == id ==> Recorded(p, w, e, Done, id) == p.(banned := true)
    ensures e.SetTier? && e.player == id ==> Recorded(p, w, e, Done, id) == p.(tier := e.tier)
    ensures (e.ClaimDaily? || e.StyleBonus?) && e.player == id && r.Reward? ==>
              Recorded(p, w, e, r, id) == p.(wallet := p.wallet + r.amount)
    ensures e.CreateListing? && e.seller == id ==> Recorded(p, w, e, Listed, id) == p.(wallet := p.wallet - 10)
    ensures e.PlainSwitch? && e.player == id ==> Recorded(p, w, e, Done, id) == p.(mode := e.mode)
    ensures e.SwitchInstall? && e.call in w.switches && w.switches[e.call].player == id ==>
              Recorded(p, w, e, Done, id) == p.(mode := NetCity)
  {
  }

  /** A refused call that is not about keys or missions leaves the record as it is. */
  lemma RefusedRecorded(p: Player, w: World, e: Event, id: Id)
    requires !e.Login? && !e.SetTier? && !e.Ban?
    requires e.RegisterKey? ==> e.player != id || e.key.None?
    requires e.CompleteMission? ==> e.player != id || e.code !in w.missions
    ensures Recorded(p, w, e, Refused, id) == p
  {
  }

  lemma KeyRecord(w: World, e: Event, id: Id)
    requires (e.RegisterKey? || e.CompleteMission?) && id in w.players
    ensures var (w', r) := AccountStep(w, e);
            id in w'.players && w'.players[id] == Recorded(w.players[id], w, e, r, id)
  {
    hide Grows, SameArena, SameMarket, SameSwitches, OnlyPlayers, Recorded;
    var p, r := w.players[id], AccountStep(w, e).1;
    if r.Refused? {
      if e.RegisterKey? ==> e.player != id || e.key.None? {
        RefusedRecorded(p, w, e, id);
      }
    } else if e.player == id {
      OwnRecorded(p, w, e, r, id);
    } else {
      NothingRecorded(p, w, e, r, id);
    }
  }

  lemma StandingEffect(w: World, e: Event)
    requires e.Ban? || e.SetTier?
    ensures var (w', r) := AccountStep(w, e);
            if e.player !in w.players then w' == w && r == Refused
            else
              && r == Done
              && w'.players == w.players[e.player := if e.Ban? then w.players[e.player].(banned := true)
                                                     else w.players[e.player].(tier := e.tier)]
  {
    hide Grows, SameArena, SameMarket, SameSwitches, OnlyPlayers;
  }

  lemma StandingRecord(w: World, e: Event, id: Id)
    requires (e.Ban? || e.SetTier?) && id in w.players
    ensures var (w', r) := AccountStep(w, e);
            id in w'.players && w'.players[id] == Recorded(w.players[id], w, e, r, id)
  {
    hide AccountStep, Recorded;
    StandingEffect(w, e);
    var p, r := w.players[id], AccountStep(w, e).1;
    if e.player == id {
      OwnRecorded(p, w, e, r, id);
    } else {
      NothingRecorded(p, w, e, r, id);
    }
  }

  /** The player alone is paid what the call answers. */
  ghost predicate PaidAlone(w: World, w': World, r: Response, id: Id) {
    && (r == Refused || r.Reward?)
    && w'.players.Keys == w.players.Keys
    && (forall other | other in w.players && other != id :: w'.players[other] == w.players[other])
    && (id in w.players ==>
          r.Reward? && SameRecord(w'.players[id], w.players[id].(wallet := w.players[id].wallet + r.amount)))
  }

  lemma PaidOne(w: World, w': World, r: Response, id: Id, p: Player)
    requires id in w.players && w'.players == w.players[id := p] && r.Reward?
    requires SameRecord(p, w.players[id].(wallet := w.players[id].wallet + r.amount))
    ensures PaidAlone(w, w', r, id)
  {
  }

  lemma DailyEffect(w: World, id: Id, day: int)
    ensures PaidAlone(w, DoClaimDaily(w, id, day).0, DoClaimDaily(w, id, day).1, id)
  {
    var (w', r) := DoClaimDaily(w, id, day);
    if (id, day) !in w.dailyClaimed && id in w.players {
      hide Grows, SameArena, SameMarket, SameSwitches, OnlyPlayers, NextStreak, Min, PaidAlone;
      PaidOne(w, w', r, id, w'.players[id]);
    }
  }

  lemma StyleEffect(w: World, id: Id, day: int, reward: nat)
    ensures PaidAlone(w, DoStyleBonus(w, id, day, reward).0, DoStyleBonus(w, id, day, reward).1, id)
  {
    var (w', r) := DoStyleBonus(w, id, day, reward);
    if id in w.players {
      hide Grows, SameArena, SameMarket, SameSwitches, OnlyPlayers, PaidAlone;
      PaidOne(w, w', r, id, w'.players[id]);
    }
  }

  lemma RewardEffect(w: World, e: Event)
    requires e.ClaimDaily? || e.StyleBonus?
    ensures PaidAlone(w, AccountStep(w, e).0, AccountStep(w, e).1, e.player)
  {
    hide Grows, SameArena, SameMarket, SameSwitches, PaidAlone, DoClaimDaily, DoStyleBonus;
    if e.ClaimDaily? {
      DailyEffect(w, e.player, e.day);
    } else {
      StyleEffect(w, e.player, e.day, e.reward);
    }
  }

  lemma RewardRecord(w: World, e: Event, id: Id)
    requires (e.ClaimDaily? || e.StyleBonus?) && id in w.players
    ensures var (w', r) := AccountStep(w, e);
            id in w'.players && SameRecord(w'.players[id], Recorded(w.players[id], w, e, r, id))
  {
    hide AccountStep, Recorded;
    RewardEffect(w, e);
    var p, r := w.players[id], AccountStep(w, e).1;
    if e.player == id {
      OwnRecorded(p, w, e, r, id);
    } else {
      NothingRecorded(p, w, e, r, id);
    }
  }

  lemma TaxIsThreePercent(price: int)
    ensures Tax(price) == TaxOn(price)
  {
    if price >= 0 {
      assert price * 300 == (price * 3) * 100;
      assert (price * 3) * 100 / 10_000 == price * 3 / 100;
    } else {
      assert -(price * 300) == (-price * 3) * 100;
      assert (-price * 3) * 100 / 10_000 == -price * 3 / 100;
    }
  }

  lemma ListingRecord(w: World, e: Event, id: Id)
    requires e.CreateListing? && id in w.players
    ensures var (w', r) := MarketStep(w, e);
            id in w'.players && w'.players[id] == Recorded(w.players[id], w, e, r, id)
  {
    hide Grows, SameArena, SameSwitches, OnlyPlayers, CurrentWindow, Recorded;
    var p, r := w.players[id], MarketStep(w, e).1;
    if r.Refused? {
      RefusedRecorded(p, w, e, id);
    } else if e.seller == id {
      OwnRecorded(p, w, e, r, id);
    } else {
      NothingRecorded(p, w, e, r, id);
    }
  }

  lemma BidRecord(w: World, e: Event, id: Id)
    requires e.PlaceBid? && id in w.players
    ensures var (w', r) := MarketStep(w, e);
            w'.players == w.players && w'.players[id] == Recorded(w.players[id], w, e, r, id)
  {
    hide Grows, SameArena, SameSwitches, Recorded;
    NothingRecorded(w.players[id], w, e, MarketStep(w, e).1, id);
  }

  lemma SaleRecord(w: World, e: Event, id: Id)
    requires e.Buyout? && id in w.players
    ensures var (w', r) := Step(w, e);
            id in w'.players && w'.players[id] == Recorded(w.players[id], w, e, r, id)
  {
    hide AccountStep, MarketStep, DuelStep, NpcStep, ModeStep, Tax, TaxOn;
    if Step(w, e).1.Sold? {
      SaleMovesPrice(w, e);
      TaxIsThreePercent(Step(w, e).1.price);
    } else {
      NoSale(w, e);
      hide Recorded;
      NothingRecorded(w.players[id], w, e, Step(w, e).1, id);
    }
  }

  lemma NoSale(w: World, e: Event)
    requires e.Buyout? && !MarketStep(w, e).1.Sold?
    ensures MarketStep(w, e) == (w, Refused)
  {
    hide Grows, SameArena, SameSwitches, AddToWallet, Tax;
  }

  lemma DuelRecord(w: World, e: Event, id: Id)
    requires DuelEvent(e) && id in w.players
    ensures var (w', r) := Step(w, e);
            id in w'.players && w'.players[id] == Recorded(w.players[id], w, e, r, id)
  {
    hide AccountStep, MarketStep, DuelStep, NpcStep, ModeStep;
    if Step(w, e).1.DuelOver? {
      OnlyActionsEnd(w, e);
      DuelOutcome(w, e);
    } else {
      DuelGoesOn(w, e);
      hide Recorded;
      NothingRecorded(w.players[id], w, e, Step(w, e).1, id);
    }
  }

  lemma OnlyActionsEnd(w: World, e: Event)
    requires DuelEvent(e) && DuelStep(w, e).1.DuelOver?
    ensures e.DuelAction?
  {
    hide Grows, SameNpcs, SameMarket, SameSwitches, AfterTurn;
  }

  lemma DuelGoesOn(w: World, e: Event)
    requires DuelEvent(e) && !DuelStep(w, e).1.DuelOver?
    ensures DuelStep(w, e).0.players == w.players && (DuelStep(w, e).1 == Done || DuelStep(w, e).1 == Refused)
  {
    hide Grows, SameNpcs, SameMarket, SameSwitches, AfterTurn;
  }

  lemma NpcGoesOn(w: World, e: Event)
    requires NpcEvent(e) && !NpcStep(w, e).1.NpcDuelOver?
    ensures NpcStep(w, e).0.players == w.players && (NpcStep(w, e).1 == Done || NpcStep(w, e).1 == Refused)
  {
    hide Grows, SameMarket, SameSwitches, PlayerTurn, NpcTurn, NpcDefeated, Defeated;
  }

  lemma NpcRecord(w: World, e: Event, id: Id)
    requires NpcEvent(e) && id in w.players
    ensures var (w', r) := Step(w, e);
            id in w'.players && w'.players[id] == Recorded(w.players[id], w, e, r, id)
  {
    hide AccountStep, MarketStep, DuelStep, NpcStep, ModeStep;
    if Step(w, e).1.NpcDuelOver? {
      NpcOnlyActions(w, e);
      NpcDuelOutcome(w, e);
      if e.player != id {
        NothingRecorded(w.players[id], w, e, Step(w, e).1, id);
      }
    } else {
      NpcGoesOn(w, e);
      hide Recorded;
      NothingRecorded(w.players[id], w, e, Step(w, e).1, id);
    }
  }

  lemma NpcOnlyActions(w: World, e: Event)
    requires NpcEvent(e) && NpcStep(w, e).1.NpcDuelOver?
    ensures e.NpcAction?
  {
    hide Grows, SameMarket, SameSwitches, PlayerTurn, NpcTurn, NpcDefeated, Defeated;
  }

  lemma SwitchRecord(w: World, e: Event, id: Id)
    requires (e.SwitchRead? || e.SwitchGate?) && id in w.players
    ensures var (w', r) := ModeStep(w, e);
            id in w'.players && w'.players[id] == Recorded(w.players[id], w, e, r, id)
  {
    hide StarterCodes, GateOpen, Grows, SameArena, SameMarket, Recorded;
    NothingRecorded(w.players[id], w, e, ModeStep(w, e).1, id);
  }

  lemma ModeRecord(w: World, e: Event, id: Id)
    requires (e.SwitchInstall? || e.PlainSwitch?) && id in w.players
    ensures var (w', r) := ModeStep(w, e);
            id in w'.players && w'.players[id] == Recorded(w.players[id], w, e, r, id)
  {
    hide Grows, SameArena, SameMarket, SameSwitches, OnlyPlayers, Recorded;
    var p, r := w.players[id], ModeStep(w, e).1;
    if r.Refused? {
      RefusedRecorded(p, w, e, id);
    } else if NewMode(w, e, r, id).Some? {
      OwnRecorded(p, w, e, r, id);
    } else {
      NothingRecorded(p, w, e, r, id);
    }
  }

  /** Each call does to each player's record exactly what its answer says. */
  lemma StepRecord(w: World, e: Event, id: Id)
    requires NamesOk(w) && IdsIssued(w) && Enabled(w, e) && id in w.players
    ensures var (w', r) := Step(w, e);
            id in w'.players && SameRecord(w'.players[id], Recorded(w.players[id], w, e, r, id))
  {
    hide AccountStep, MarketStep, DuelStep, NpcStep, ModeStep, Enabled, NamesOk, Grows, Recorded;
    if e.Login? {
      LoginRecord(w, e, id);
      LoginDone(w, e);
    } else if e.RegisterKey? || e.CompleteMission? {
      KeyRecord(w, e, id);
    } else if e.Ban? || e.SetTier? {
      StandingRecord(w, e, id);
    } else if AccountEvent(e) {
      RewardRecord(w, e, id);
    } else if e.CreateListing? {
      ListingRecord(w, e, id);
    } else if e.PlaceBid? {
      BidRecord(w, e, id);
    } else if e.SwitchRead? || e.SwitchGate? {
      SwitchRecord(w, e, id);
    } else if ModeEvent(e) {
      ModeRecord(w, e, id);
    } else {
      hide Step;
      if e.Buyout? {
        SaleRecord(w, e, id);
      } else if DuelEvent(e) {
        DuelRecord(w, e, id);
      } else {
        NpcRecord(w, e, id);
      }
    }
  }

  lemma LoginDone(w: World, e: Event)
    requires NamesOk(w) && e.Login?
    ensures AccountStep(w, e).1 == Done
  {
    hide Grows, SameArena, SameMarket, SameSwitches;
    if e.username in w.byUsername {
      ListedAccount(w, e.username);
      assert FirstWithKey(w, w.byUsername[e.username][1..], e.offered).None?;
    }
  }

  /** Only a login with a name not seen before makes a record, and it makes this one. */
  lemma NewRecord(w: World, e: Event, id: Id)
    requires NamesOk(w) && IdsIssued(w) && Enabled(w, e) && id !in w.players && id in Step(w, e).0.players
    ensures e.Login? && e.newId == id && e.username !in w.byUsername
    ensures Step(w, e).0.players[id]
         == Player(e.username, e.username + "@" + e.remoteIp, Noob, Training, 0, false, 500, 0, None, {}, e.offered, {},
                   0, None)
  {
    hide AccountStep, MarketStep, DuelStep, NpcStep, ModeStep, NamesOk, Grows;
    if e.Login? {
      LoginEffect(w, e);
    } else if e.ClaimDaily? || e.StyleBonus? {
      ClaimEffect(w, e);
    } else {
      hide AllKeep;
      OthersKeep(w, e);
      SamePlayersKept(w, Step(w, e).0);
    }
  }

  lemma SamePlayersKept(w: World, w': World)
    requires AllKeep(w, w')
    ensures w'.players.Keys == w.players.Keys && w'.byUsername == w.byUsername
  {
  }

  // What the calls answer

  predicate Active(w: World, id: Id) {
    id in w.players && !w.players[id].banned
  }

  /** Account calls succeed exactly for players who exist, registrations with a valid key, and
      completions of a mission there is. */
  lemma AccountAnswers(w: World, e: Event)
    requires PlainAccountEvent(e)
    ensures var (w', r) := Step(w, e);
            && (r == Done <==> && e.player in w.players
                               && (e.RegisterKey? ==> e.key.Some?) && (e.CompleteMission? ==> e.code in w.missions))
            && (r == Done || (r == Refused && w' == w))
  {
    hide MarketStep, DuelStep, NpcStep, ModeStep, Grows, SameArena, SameMarket, SameSwitches, OnlyPlayers;
  }

  /** A switch to a mode other than NetCity succeeds exactly for players who are not banned; so does
      the first section of one to NetCity. The second lets pass exactly those who have what the
      gate demands, by the keys read in the first; the third those who passed and are not banned. */
  lemma ModeAnswers(w: World, e: Event)
    requires ModeEvent(e)
    ensures var (w', r) := Step(w, e);
            && (r == Done || r == Refused)
            && (e.PlainSwitch? ==> (r == Done <==> Active(w, e.player) && !e.mode.NetCity?))
            && (e.SwitchRead? ==>
                  && (r == Done <==> Active(w, e.player))
                  && (r == Done ==>
                        w'.switches == w.switches[e.newId := Switch(e.player, w.players[e.player].observed, false)]))
            && (e.SwitchInstall? ==>
                  (r == Done <==>
                     e.call in w.switches && w.switches[e.call].passed && Active(w, w.switches[e.call].player)))
            && (e.SwitchGate? ==>
                  (r == Done <==>
                     && e.call in w.switches && !w.switches[e.call].passed && Active(w, w.switches[e.call].player)
                     && var p := w.players[w.switches[e.call].player];
                        && "keys-vault" in p.completed && p.completed * StarterCodes() != {}
                        && p.registered * w.switches[e.call].offered != {}))
  {
    hide AccountStep, MarketStep, DuelStep, NpcStep, StarterCodes, Grows, SameArena, SameMarket, SameSwitches;
  }

  // Whole runs

  /** The codes a player has completed: those of the calls since the account exists that name a
      mission there is. */
  ghost function CompletedCodes(ws: seq<World>, es: seq<Event>, id: Id, n: nat): set<string>
    requires |ws| == |es| + 1 && n <= |es|
  {
    set i | 0 <= i < n && id in ws[i].players && Completes(ws[i], es[i], id) :: es[i].code
  }

  ghost function RegisteredKeys(ws: seq<World>, es: seq<Event>, id: Id, n: nat): set<string>
    requires |ws| == |es| + 1 && n <= |es|
  {
    set i | 0 <= i < n && id in ws[i].players && Registers(es[i], id) :: es[i].key.value
  }

  /** The keys that logins under a name have presented. */
  ghost function PresentedKeys(es: seq<Event>, username: string, n: nat): set<string>
    requires n <= |es|
  {
    if n == 0 then {}
    else PresentedKeys(es, username, n - 1) + (if LogsIn(es[n - 1], username) then es[n - 1].offered else {})
  }

  /** The sum of what the answered calls have meant for a wallet. */
  ghost function Earned(ws: seq<World>, es: seq<Event>, id: Id, n: nat): int
    requires |ws| == |es| + 1 && n <= |es|
  {
    if n == 0 then 0
    else
      Earned(ws, es, id, n - 1)
      + (if id in ws[n - 1].players then Gain(ws[n - 1], es[n - 1], Step(ws[n - 1], es[n - 1]).1, id) else 0)
  }

  ghost function Losses(ws: seq<World>, es: seq<Event>, id: Id, n: nat): nat
    requires |ws| == |es| + 1 && n <= |es|
  {
    if n == 0 then 0
    else
      Losses(ws, es, id, n - 1)
      + (if id in ws[n - 1].players && Loses(es[n - 1], Step(ws[n - 1], es[n - 1]).1, id) then 1 else 0)
  }

  /** The tier last set, and the mode last switched to. */
  ghost function TierNow(ws: seq<World>, es: seq<Event>, id: Id, n: nat): Tier
    requires |ws| == |es| + 1 && n <= |es|
  {
    if n == 0 then Noob
    else if id in ws[n - 1].players && es[n - 1].SetTier? && es[n - 1].player == id then es[n - 1].tier
    else TierNow(ws, es, id, n - 1)
  }

  ghost function ModeNow(ws: seq<World>, es: seq<Event>, id: Id, n: nat): Mode
    requires |ws| == |es| + 1 && n <= |es|
  {
    if n == 0 then Training
    else
      var switched := NewMode(ws[n - 1], es[n - 1], Step(ws[n - 1], es[n - 1]).1, id);
      if id in ws[n - 1].players && switched.Some? then switched.value else ModeNow(ws, es, id, n - 1)
  }

  /** The account has been banned by name, or by a third loss on the hardest tier. */
  ghost function BannedNow(ws: seq<World>, es: seq<Event>, id: Id, n: nat): bool
    requires |ws| == |es| + 1 && n <= |es|
  {
    n > 0 && (
      || BannedNow(ws, es, id, n - 1)
      || (id in ws[n - 1].players && (
            || (es[n - 1].Ban? && es[n - 1].player == id)
            || (Loses(es[n - 1], Step(ws[n - 1], es[n - 1]).1, id)
                && TierNow(ws, es, id, n - 1).Hardcore? && Losses(ws, es, id, n) >= 3))))
  }

  ghost predicate Told(ws: seq<World>, es: seq<Event>, id: Id, n: nat)
    requires |ws| == |es| + 1 && n <= |es|
  {
    if id in ws[n].players then
      var p := ws[n].players[id];
      && p.completed == CompletedCodes(ws, es, id, n)
      && p.registered == RegisteredKeys(ws, es, id, n)
      && p.wallet == 500 + Earned(ws, es, id, n)
      && p.deaths == Losses(ws, es, id, n)
      && p.tier == TierNow(ws, es, id, n) && p.mode == ModeNow(ws, es, id, n)
      && p.banned == BannedNow(ws, es, id, n)
    else
      && CompletedCodes(ws, es, id, n) == {} == RegisteredKeys(ws, es, id, n)
      && Earned(ws, es, id, n) == 0 && Losses(ws, es, id, n) == 0
      && TierNow(ws, es, id, n).Noob? && ModeNow(ws, es, id, n).Training? && !BannedNow(ws, es, id, n)
  }

  lemma SetsStep(ws: seq<World>, es: seq<Event>, id: Id, n: nat)
    requires |ws| == |es| + 1 && n < |es|
    ensures CompletedCodes(ws, es, id, n + 1)
         == CompletedCodes(ws, es, id, n)
            + (if id in ws[n].players && Completes(ws[n], es[n], id) then {es[n].code} else {})
    ensures RegisteredKeys(ws, es, id, n + 1)
         == RegisteredKeys(ws, es, id, n)
            + (if id in ws[n].players && Registers(es[n], id) then {es[n].key.value} else {})
  {
  }

  lemma ToldStep(ws: seq<World>, es: seq<Event>, id: Id, n: nat)
    requires IsRun(ws, es) && n < |es| && NamesOk(ws[n]) && IdsIssued(ws[n]) && Told(ws, es, id, n)
    ensures Told(ws, es, id, n + 1)
  {
    hide Step, Enabled, NamesOk, IdsIssued, CompletedCodes, RegisteredKeys, Gain, NewMode, Loses, Registers, Completes;
    assert Follows(ws, es, n);
    SetsStep(ws, es, id, n);
    if id in ws[n].players {
      StepRecord(ws[n], es[n], id);
    } else if id in ws[n + 1].players {
      NewRecord(ws[n], es[n], id);
    }
  }

  /** At any point of any run, a player's completed missions, registered keys, wallet, deaths,
      tier, mode and ban are what the calls since the account exists, and their answers, make
      them. */
  lemma {:induction false} RecordReplays(ws: seq<World>, es: seq<Event>, id: Id, n: nat)
    requires IsRun(ws, es) && n <= |es|
    ensures Told(ws, es, id, n)
  {
    if n > 0 {
      hide Step, Told, NamesOk, IdsIssued;
      RecordReplays(ws, es, id, n - 1);
      OneAccountPerName(ws, es, n - 1);
      ToldStep(ws, es, id, n - 1);
    }
  }

  /** What a name's account has observed is what logins under the name presented. */
  ghost predicate SeenUnder(w: World, es: seq<Event>, username: string, n: nat)
    requires n <= |es| && NamesOk(w)
  {
    if username in w.byUsername then
      w.players[w.byUsername[username][0]].observed == PresentedKeys(es, username, n)
      && w.players[w.byUsername[username][0]].username == username
    else PresentedKeys(es, username, n) == {}
  }

  lemma NamesAfter(w: World, e: Event)
    requires NamesOk(w) && IdsIssued(w) && Enabled(w, e)
    ensures Step(w, e).0.byUsername
         == if e.Login? && e.username !in w.byUsername then w.byUsername[e.username := [e.newId]] else w.byUsername
  {
    hide AccountStep, MarketStep, DuelStep, NpcStep, ModeStep, NamesOk, Grows, AllKeep;
    if e.Login? {
      LoginEffect(w, e);
    } else if e.ClaimDaily? || e.StyleBonus? {
      ClaimEffect(w, e);
    } else {
      OthersKeep(w, e);
      SamePlayersKept(w, Step(w, e).0);
    }
  }

  lemma SeenStep(ws: seq<World>, es: seq<Event>, username: string, n: nat)
    requires IsRun(ws, es) && n < |es| && NamesOk(ws[n]) && IdsIssued(ws[n]) && SeenUnder(ws[n], es, username, n)
    requires NamesOk(ws[n + 1])
    ensures SeenUnder(ws[n + 1], es, username, n + 1)
  {
    assert Follows(ws, es, n);
    var w, e := ws[n], es[n];
    hide Step, Enabled, IdsIssued, Follows;
    NamesAfter(w, e);
    if username in w.byUsername {
      ListedAccount(w, username);
      hide NamesOk;
      StepRecord(w, e, w.byUsername[username][0]);
    } else if LogsIn(e, username) {
      hide NamesOk;
      NewAccount(w, e);
    }
  }

  lemma NewAccount(w: World, e: Event)
    requires NamesOk(w) && IdsIssued(w) && Enabled(w, e) && e.Login? && e.username !in w.byUsername
    ensures var w' := Step(w, e).0;
            e.newId in w'.players && w'.players[e.newId].observed == e.offered
            && w'.players[e.newId].username == e.username
  {
    hide AccountStep, NamesOk, Grows;
    LoginEffect(w, e);
  }

  lemma {:induction false} RunSeen(ws: seq<World>, es: seq<Event>, username: string, n: nat)
    requires IsRun(ws, es) && n <= |es|
    ensures NamesOk(ws[n]) && SeenUnder(ws[n], es, username, n)
  {
    OneAccountPerName(ws, es, n);
    if n > 0 {
      hide Step, SeenUnder, IdsIssued, NamesOk;
      RunSeen(ws, es, username, n - 1);
      OneAccountPerName(ws, es, n - 1);
      SeenStep(ws, es, username, n - 1);
    }
  }

  /** And the keys it has observed are those that logins under its name have presented. */
  lemma ObservedReplays(ws: seq<World>, es: seq<Event>, id: Id, n: nat)
    requires IsRun(ws, es) && n <= |es| && id in ws[n].players
    ensures ws[n].players[id].observed == PresentedKeys(es, ws[n].players[id].username, n)
  {
    RunSeen(ws, es, ws[n].players[id].username, n);
    ListedIff(ws[n], ws[n].players[id].username, id);
  }

  // The gate, in terms of the calls

  /** So a player qualifies for NetCity if and only if the calls so far have completed KEYS VAULT
      and a starter mission, and registered a key that a login under the name presented. */
  lemma QualifiedIff(ws: seq<World>, es: seq<Event>, id: Id, n: nat)
    requires IsRun(ws, es) && n <= |es| && id in ws[n].players
    ensures Qualified(ws[n].players[id])
       <==> && KEYS_VAULT in CompletedCodes(ws, es, id, n)
            && CompletedCodes(ws, es, id, n) * StarterCodes() != {}
            && RegisteredKeys(ws, es, id, n) * PresentedKeys(es, ws[n].players[id].username, n) != {}
  {
    hide StarterCodes, CompletedCodes, RegisteredKeys, IsRun;
    RecordReplays(ws, es, id, n);
    ObservedReplays(ws, es, id, n);
  }

  // The gate lets in

  /** One call more, and what it does to the record. */
  lemma OneCall(ws: seq<World>, es: seq<Event>, e: Event, id: Id) returns (ws': seq<World>, es': seq<Event>)
    requires IsRun(ws, es) && Enabled(ws[|es|], e) && id in ws[|es|].players
    ensures ws' == ws + [Step(ws[|es|], e).0] && es' == es + [e] && IsRun(ws', es')
    ensures var w', r := ws'[|es'|], Step(ws[|es|], e).1;
            id in w'.players && SameRecord(w'.players[id], Recorded(ws[|es|].players[id], ws[|es|], e, r, id))
    ensures ws'[|es'|].missions == ws[|es|].missions
  {
    hide Step, Enabled, Recorded, NamesOk;
    ws', es' := ws + [Step(ws[|es|], e).0], es + [e];
    RunGoesOn(ws, es, e);
    OneAccountPerName(ws, es, |es|);
    StepRecord(ws[|es|], e, id);
  }

  /** What a player's own account calls add stays. */
  lemma Gathered(p: Player, p': Player, w: World, e: Event, r: Response, id: Id)
    requires SameRecord(p', Recorded(p, w, e, r, id))
    requires LogsIn(e, p.username) || ((e.RegisterKey? || e.CompleteMission?) && e.player == id)
    ensures Advances(p, p') && p'.banned == p.banned && p'.username == p.username
    ensures e.Login? ==> e.offered <= p'.observed
    ensures e.RegisterKey? && e.key.Some? ==> e.key.value in p'.registered
    ensures e.CompleteMission? && e.code in w.missions ==> e.code in p'.completed
  {
  }

  lemma AccountCall(ws: seq<World>, es: seq<Event>, e: Event, id: Id) returns (ws': seq<World>, es': seq<Event>)
    requires IsRun(ws, es) && Enabled(ws[|es|], e) && id in ws[|es|].players
    requires LogsIn(e, ws[|es|].players[id].username) || ((e.RegisterKey? || e.CompleteMission?) && e.player == id)
    ensures IsRun(ws', es') && ws <= ws' && es <= es' && ws'[|es'|].missions == ws[|es|].missions
    ensures id in ws'[|es'|].players
    ensures var p, p' := ws[|es|].players[id], ws'[|es'|].players[id];
            && Advances(p, p') && p'.banned == p.banned && p'.username == p.username
            && (e.Login? ==> e.offered <= p'.observed)
            && (e.RegisterKey? && e.key.Some? ==> e.key.value in p'.registered)
            && (e.CompleteMission? && e.code in ws[|es|].missions ==> e.code in p'.completed)
  {
    hide Step, Enabled, Recorded, SameRecord, Advances, Follows, Init, GoodSeeds;
    ws', es' := OneCall(ws, es, e, id);
    Gathered(ws[|es|].players[id], ws'[|es'|].players[id], ws[|es|], e, Step(ws[|es|], e).1, id);
  }

  /** The account calls that a player needs for the gate. */
  lemma Prepared(ws: seq<World>, es: seq<Event>, id: Id, key: string, code: string, newId: Id)
      returns (ws': seq<World>, es': seq<Event>)
    requires IsRun(ws, es) && id in ws[|es|].players && !ws[|es|].players[id].banned && Fresh(ws[|es|], newId)
    requires KEYS_VAULT in ws[|es|].missions && code in ws[|es|].missions && code in StarterCodes()
    ensures IsRun(ws', es') && ws <= ws' && es <= es' && id in ws'[|es'|].players
    ensures Qualified(ws'[|es'|].players[id]) && !ws'[|es'|].players[id].banned
  {
    hide StarterCodes, Fresh, Follows, Init, GoodSeeds;
    var name := ws[|es|].players[id].username;
    ws', es' := AccountCall(ws, es, Login(name, "10.0.0.1", {key}, newId), id);
    ws', es' := AccountCall(ws', es', RegisterKey(id, Some(key)), id);
    ws', es' := AccountCall(ws', es', CompleteMission(id, KEYS_VAULT), id);
    ws', es' := AccountCall(ws', es', CompleteMission(id, code), id);
    var p := ws'[|es'|].players[id];
    assert code in p.completed * StarterCodes() && key in p.registered * p.observed;
  }

  lemma SwitchSteps(w: World, player: Id, newId: Id)
    ensures var w1 := Step(w, SwitchRead(player, newId)).0;
            var w2 := Step(w1, SwitchGate(newId)).0;
            Step(w2, SwitchInstall(newId)) == SwitchAlone(w, player, newId)
  {
    hide DoSwitchRead, DoSwitchGate, DoSwitchInstall, Grows;
  }

  lemma ThreeMore(ws: seq<World>, es: seq<Event>, a: Event, b: Event, c: Event)
      returns (ws': seq<World>, es': seq<Event>)
    requires IsRun(ws, es) && Enabled(ws[|es|], a)
    requires var w1 := Step(ws[|es|], a).0;
             Enabled(w1, b) && Enabled(Step(w1, b).0, c)
    ensures IsRun(ws', es') && ws <= ws' && es <= es'
    ensures |ws'| == |es'| + 1 && ws'[|es'|] == Step(Step(Step(ws[|es|], a).0, b).0, c).0
  {
    hide Step, Enabled, Follows, Init, GoodSeeds;
    var w1 := Step(ws[|es|], a).0;
    var w2 := Step(w1, b).0;
    RunGoesOn(ws, es, a);
    RunGoesOn(ws + [w1], es + [a], b);
    ws', es' := ws + [w1] + [w2] + [Step(w2, c).0], es + [a] + [b] + [c];
    RunGoesOn(ws + [w1] + [w2], es + [a] + [b], c);
  }

  lemma SwitchedIn(ws: seq<World>, es: seq<Event>, id: Id) returns (ws': seq<World>, es': seq<Event>)
    requires IsRun(ws, es) && id in ws[|es|].players && !ws[|es|].players[id].banned && Qualified(ws[|es|].players[id])
    ensures IsRun(ws', es') && ws <= ws' && es <= es'
    ensures id in ws'[|es'|].players && ws'[|es'|].players[id].mode == NetCity
  {
    hide Step, Qualified, SwitchAlone, NamesOk, Follows, Init, GoodSeeds;
    var w := ws[|es|];
    var newId := AllBelow(w.issued);
    OneAccountPerName(ws, es, |es|);
    SwitchAloneIffQualified(w, id, newId);
    SwitchSteps(w, id, newId);
    ws', es' := ThreeMore(ws, es, SwitchRead(id, newId), SwitchGate(newId), SwitchInstall(newId));
  }

  /** From any point of any run, whoever exists and is not banned can still enter NetCity, where
      KEYS VAULT and a starter mission are among the missions: the run goes on with a login that
      presents a key, its registration, the two missions, and a switch. */
  lemma CanEnter(ws: seq<World>, es: seq<Event>, id: Id, key: string, code: string)
      returns (ws': seq<World>, es': seq<Event>)
    requires IsRun(ws, es) && id in ws[|es|].players && !ws[|es|].players[id].banned
    requires KEYS_VAULT in ws[|es|].missions && code in ws[|es|].missions && code in StarterCodes()
    ensures IsRun(ws', es') && ws <= ws' && es <= es'
    ensures id in ws'[|es'|].players && ws'[|es'|].players[id].mode == NetCity
  {
    hide StarterCodes, Qualified, Follows, Init, GoodSeeds;
    var newId := AllBelow(ws[|es|].issued);
    ws', es' := Prepared(ws, es, id, key, code, newId);
    ws', es' := SwitchedIn(ws', es', id);
  }

  /** So a new player can get there from nothing. */
  lemma NewPlayerEnters() returns (ws: seq<World>, es: seq<Event>)
    ensures IsRun(ws, es) && 0 in ws[|es|].players && ws[|es|].players[0].mode == NetCity
    ensures ws[0] == Init(map[], {KEYS_VAULT, "pipes-101"})
  {
    var w := Init(map[], {KEYS_VAULT, "pipes-101"});
    var join := Login("runner", "10.0.0.1", {"key"}, 0);
    assert IsRun([w], []);
    hide Step, StarterCodes, Follows, Init, GoodSeeds;
    OneAccountPerName([w], [], 0);
    NamesAfter(w, join);
    Joined(w, join);
    RunGoesOn([w], [], join);
    ws, es := CanEnter([w] + [Step(w, join).0], [] + [join], 0, "key", "pipes-101");
    assert ws[0] == w;
  }

  lemma Joined(w: World, e: Event)
    requires w == Init(map[], {KEYS_VAULT, "pipes-101"}) && e == Login("runner", "10.0.0.1", {"key"}, 0)
    ensures Enabled(w, e)
    ensures var w' := Step(w, e).0;
            0 in w'.players && !w'.players[0].banned && w'.missions == w.missions && "pipes-101" in StarterCodes()
  {
    hide MarketStep, DuelStep, NpcStep, ModeStep, Grows;
  }
}
