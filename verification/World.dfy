/** The shared world: its state, every locked section of `WorldService` as one atomic step on that
    state, and the runs that such steps make up in any order. */
module World {
  import opened Base
  import opened Text

  type Id = nat

  const KEYS_VAULT := "keys-vault"

  function StarterCodes(): set<string> {
    { "pipes-101", "finder", "redirect-lab", "log-hunt", "dedupe-city", "timestamp-gap", "ghost-user",
      "signal-trace", "deleted-file", "first-clue", "rivet-log", "nix-signal", "lumen-price", "dusk-alibi" }
  }

  datatype Tier = Noob | Gud | Hardcore

  datatype Mode = Training | NetCity | Redline

  datatype Player = Player(
    username: string,
    displayName: string,
    tier: Tier,
    mode: Mode,
    deaths: nat,
    banned: bool,
    wallet: int,
    streak: nat,
    streakDay: Option<int>,
    registered: set<string>,
    observed: set<string>,
    completed: set<string>,
    styleClaims: nat,
    styleDay: Option<int>)

  datatype Listing = Listing(
    seller: Id,
    startPrice: int,
    buyout: Option<int>,
    expiresAt: int,
    highestBid: Option<int>,
    highestBidder: Option<Id>)

  datatype Duel = Duel(
    left: Id,
    right: Id,
    leftHp: int,
    rightHp: int,
    leftDefending: bool,
    rightDefending: bool,
    lastActor: Option<Id>)

  datatype Npc = Npc(
    name: string,
    role: string,
    generation: nat,
    timesDefeated: nat,
    baseHp: int,
    damageLo: int,
    damageHi: int,
    bonusDamage: int,
    hasSuccessors: bool,
    pool: seq<string>,
    reward: int)
  {
    function ScaledHp(): int {
      Min(baseHp + timesDefeated * 5, 300)
    }

    function ScaledLo(): int {
      Min(damageLo + timesDefeated / 2, 50)
    }

    function ScaledHi(): int {
      Min(damageHi + timesDefeated / 2, 50)
    }
  }

  datatype NpcDuel = NpcDuel(
    player: Id,
    callsign: string,
    playerHp: int,
    npcHp: int,
    playerDefending: bool,
    npcDefending: bool,
    bonusReady: bool)

  datatype HistoryEntry = HistoryEntry(
    event: string,
    npcName: string,
    npcRole: string,
    generation: nat,
    defeatedBy: string)

  /** A `mode_switch` to NetCity under way: after its first lock, and after its second. */
  datatype Switch = Switch(player: Id, offered: set<string>, passed: bool)

  datatype World = World(
    players: map<Id, Player>,
    byUsername: map<string, seq<Id>>,
    missions: set<string>,
    npcs: map<string, Npc>,
    npcDuels: map<Id, NpcDuel>,
    history: seq<HistoryEntry>,
    auctions: map<Id, Listing>,
    duels: map<Id, Duel>,
    dailyClaimed: set<(Id, int)>,
    listingWindows: map<Id, (int, nat)>,
    switches: map<Id, Switch>,
    issued: set<Id>)  // identifiers handed out so far

  datatype Action = Attack | Defend | Script(nameLength: nat)

  /** One call. Fresh identifiers, clock readings, dice and the style reward are parameters. */
  datatype Event =
    | Login(username: string, remoteIp: string, offered: set<string>, newId: Id)
    | RegisterKey(player: Id, key: Option<string>)  // the key line's fingerprint, if it is a valid one
    | CompleteMission(player: Id, code: string)
    | Ban(player: Id)
    | SetTier(player: Id, tier: Tier)
    | ClaimDaily(player: Id, day: int)
    | StyleBonus(player: Id, day: int, reward: nat)
    | CreateListing(seller: Id, startPrice: int, buyoutPrice: Option<int>, now: int, newId: Id)
    | PlaceBid(bidder: Id, listing: Id, amount: int, now: int)
    | Buyout(buyer: Id, listing: Id)
    | StartDuel(left: Id, right: Id, newId: Id)
    | DuelAction(duel: Id, actor: Id, action: Action, roll: int)
    | StartNpcDuel(player: Id, callsign: string, newId: Id)
    | NpcAction(npcDuel: Id, player: Id, action: Action, roll: int, npcDefends: bool, npcRoll: int)
    | SolveBonus(npcDuel: Id, player: Id, solved: bool)
    | SwitchRead(player: Id, newId: Id)
    | SwitchGate(call: Id)
    | SwitchInstall(call: Id)
    | PlainSwitch(player: Id, mode: Mode)

  datatype Response =
    | Refused
    | Done
    | Reward(amount: int)
    | Listed
    | Sold(price: int)
    | DuelOver(winner: Id, loser: Id)
    | NpcDuelOver(playerWon: bool)

  // What a step may leave alone

  predicate SameNpcs(w: World, w': World) {
    w'.npcs == w.npcs && w'.npcDuels == w.npcDuels && w'.history == w.history
  }

  predicate SameArena(w: World, w': World) {
    SameNpcs(w, w') && w'.duels == w.duels
  }

  predicate SameMarket(w: World, w': World) {
    w'.auctions == w.auctions && w'.listingWindows == w.listingWindows
  }

  predicate SameSwitches(w: World, w': World) {
    w'.switches == w.switches
  }

  /** Every identifier in use has been handed out. */
  ghost predicate IdsIssued(w: World) {
    && w.players.Keys <= w.issued && w.auctions.Keys <= w.issued
    && w.duels.Keys <= w.issued && w.npcDuels.Keys <= w.issued && w.switches.Keys <= w.issued
  }

  /** Identifiers stay accounted for, and neither players nor issued identifiers are lost. */
  ghost predicate Grows(w: World, w': World) {
    && (IdsIssued(w) ==> IdsIssued(w'))
    && w.issued <= w'.issued
    && w.players.Keys <= w'.players.Keys
    && w'.missions == w.missions && w'.npcs.Keys == w.npcs.Keys
  }

  function Min(a: int, b: int): int { if a <= b then a else b }

  function Max(a: int, b: int): int { if a >= b then a else b }

  /** Division as the program does it, truncating toward zero. */
  function TruncDiv(a: int, b: int): int
    requires b > 0
  {
    if a >= 0 then a / b else -(-a / b)
  }

  // Players

  function NewPlayer(username: string, displayName: string): Player {
    Player(username, displayName, Noob, Training, 0, false, 500, 0, None, {}, {}, {}, 0, None)
  }

  function FirstWithKey(w: World, ids: seq<Id>, offered: set<string>): Option<Id> {
    if ids == [] then None
    else if ids[0] in w.players && w.players[ids[0]].registered * offered != {} then Some(ids[0])
    else FirstWithKey(w, ids[1..], offered)
  }

  function SeePlayer(w: World, id: Id, displayName: string, offered: set<string>): (r: (World, Response))
    ensures SameArena(w, r.0) && SameMarket(w, r.0) && SameSwitches(w, r.0)
    ensures Grows(w, r.0)
  {
    if id !in w.players then (w, Refused)
    else
      var p := w.players[id];
      (w.(players := w.players[id := p.(displayName := displayName, observed := p.observed + offered)]), Done)
  }

  function DoLogin(w: World, username: string, remoteIp: string, offered: set<string>, newId: Id)
      : (r: (World, Response))
    ensures SameArena(w, r.0) && SameMarket(w, r.0) && SameSwitches(w, r.0)
    ensures Grows(w, r.0)
  {
    var candidates := if username in w.byUsername then w.byUsername[username] else [];
    var displayName := username + "@" + remoteIp;
    var selected := FirstWithKey(w, candidates, offered);
    if selected.Some? then SeePlayer(w, selected.value, displayName, offered)
    else if candidates != [] then SeePlayer(w, candidates[0], displayName, offered)
    else
      SeePlayer(w.(players := w.players[newId := NewPlayer(username, displayName)],
                   byUsername := w.byUsername[username := [newId]],
                   issued := w.issued + {newId}),
                newId, displayName, offered)
  }

  /** Only players' own records differ. */
  predicate OnlyPlayers(w: World, w': World) {
    w' == w.(players := w'.players) && w'.players.Keys == w.players.Keys
  }

  function UpdatePlayer(w: World, id: Id, p: Player): (w': World)
    requires id in w.players
    ensures OnlyPlayers(w, w')
  {
    w.(players := w.players[id := p])
  }

  function DoRegisterKey(w: World, id: Id, key: Option<string>): (r: (World, Response))
    ensures SameArena(w, r.0) && SameMarket(w, r.0) && SameSwitches(w, r.0)
    ensures Grows(w, r.0)
  {
    if key.None? || id !in w.players then (w, Refused)
    else
      var p := w.players[id];
      (UpdatePlayer(w, id, p.(registered := p.registered + {key.value})), Done)
  }

  function DoCompleteMission(w: World, id: Id, code: string): (r: (World, Response))
    ensures SameArena(w, r.0) && SameMarket(w, r.0) && SameSwitches(w, r.0)
    ensures Grows(w, r.0)
  {
    if code !in w.missions || id !in w.players then (w, Refused)
    else
      var p := w.players[id];
      (UpdatePlayer(w, id, p.(completed := p.completed + {code})), Done)
  }

  function DoBan(w: World, id: Id): (r: (World, Response))
    ensures SameArena(w, r.0) && SameMarket(w, r.0) && SameSwitches(w, r.0)
    ensures Grows(w, r.0)
  {
    if id !in w.players then (w, Refused)
    else (UpdatePlayer(w, id, w.players[id].(banned := true)), Done)
  }

  function DoSetTier(w: World, id: Id, tier: Tier): (r: (World, Response))
    ensures SameArena(w, r.0) && SameMarket(w, r.0) && SameSwitches(w, r.0)
    ensures Grows(w, r.0)
  {
    if id !in w.players then (w, Refused)
    else (UpdatePlayer(w, id, w.players[id].(tier := tier)), Done)
  }

  // Rewards

  function NextStreak(p: Player, day: int): nat {
    if p.streakDay.None? then 1
    else if p.streakDay.value + 1 == day then Min(p.streak + 1, 7)
    else if p.streakDay.value != day then 1
    else p.streak
  }

  function DoClaimDaily(w: World, id: Id, day: int): (r: (World, Response))
    ensures SameArena(w, r.0) && SameMarket(w, r.0) && SameSwitches(w, r.0)
    ensures Grows(w, r.0)
  {
    if (id, day) in w.dailyClaimed then (w, Reward(0))
    else if id !in w.players then (w, Refused)
    else
      var p := w.players[id];
      var streak := NextStreak(p, day);
      var reward := 50 + Min(streak * 15, 120);
      (UpdatePlayer(w, id, p.(streak := streak, streakDay := Some(day), wallet := p.wallet + reward))
         .(dailyClaimed := w.dailyClaimed + {(id, day)}),
       Reward(reward))
  }

  function DoStyleBonus(w: World, id: Id, day: int, reward: nat): (r: (World, Response))
    ensures SameArena(w, r.0) && SameMarket(w, r.0) && SameSwitches(w, r.0)
    ensures Grows(w, r.0)
  {
    if id !in w.players then (w, Refused)
    else
      var p := w.players[id];
      var claims := if p.styleDay == Some(day) then p.styleClaims else 0;
      var (paid, counted) := if claims >= 5 then (0, claims) else (reward, claims + 1);
      (UpdatePlayer(w, id, p.(styleDay := Some(day), styleClaims := counted, wallet := p.wallet + paid)),
       Reward(paid))
  }

  // Auctions

  const PRICE_FLOOR := 25
  const LISTING_FEE := 10
  const MAX_LISTINGS := 3
  const WINDOW := 30 * SECOND

  /** The seller's window when a listing is attempted, restarted once it is over. */
  function CurrentWindow(w: World, seller: Id, now: int): (int, nat) {
    if seller in w.listingWindows && now - w.listingWindows[seller].0 <= WINDOW then w.listingWindows[seller]
    else (now, 0)
  }

  function DoCreateListing(w: World, seller: Id, startPrice: int, buyoutPrice: Option<int>, now: int, newId: Id)
      : (r: (World, Response))
    ensures SameArena(w, r.0) && SameSwitches(w, r.0)
    ensures Grows(w, r.0)
  {
    if startPrice < PRICE_FLOOR || seller !in w.players || w.players[seller].wallet < LISTING_FEE then (w, Refused)
    else
      var (start, count) := CurrentWindow(w, seller, now);
      if count >= MAX_LISTINGS then (w.(listingWindows := w.listingWindows[seller := (start, count)]), Refused)
      else
        var p := w.players[seller];
        var listing := Listing(seller, startPrice, buyoutPrice, now + 12 * 3600 * SECOND, None, None);
        (UpdatePlayer(w, seller, p.(wallet := p.wallet - LISTING_FEE))
           .(listingWindows := w.listingWindows[seller := (start, count + 1)],
             auctions := w.auctions[newId := listing],
             issued := w.issued + {newId}),
         Listed)
  }

  function DoPlaceBid(w: World, bidder: Id, id: Id, amount: int, now: int): (r: (World, Response))
    ensures SameArena(w, r.0) && SameSwitches(w, r.0)
    ensures Grows(w, r.0)
  {
    if bidder !in w.players || id !in w.auctions then (w, Refused)
    else
      var l := w.auctions[id];
      var floor := if l.highestBid.Some? then l.highestBid.value else l.startPrice;
      if now > l.expiresAt || amount <= floor || w.players[bidder].wallet < amount then (w, Refused)
      else (w.(auctions := w.auctions[id := l.(highestBid := Some(amount), highestBidder := Some(bidder))]), Done)
  }

  function Tax(price: int): int {
    TruncDiv(price * 300, 10_000)
  }

  function AddToWallet(w: World, id: Id, amount: int): (w': World)
    ensures OnlyPlayers(w, w')
  {
    if id in w.players then UpdatePlayer(w, id, w.players[id].(wallet := w.players[id].wallet + amount)) else w
  }

  lemma AddToWalletExact(w: World, id: Id, amount: int)
    ensures var w' := AddToWallet(w, id, amount);
            forall other | other in w.players ::
              w'.players[other] ==
                w.players[other].(wallet := w.players[other].wallet + if other == id then amount else 0)
  {
  }

  function DoBuyout(w: World, buyer: Id, id: Id): (r: (World, Response))
    ensures SameArena(w, r.0) && SameSwitches(w, r.0)
    ensures Grows(w, r.0)
  {
    if id !in w.auctions || w.auctions[id].buyout.None? || buyer !in w.players then (w, Refused)
    else
      var price := w.auctions[id].buyout.value;
      if w.players[buyer].wallet < price then (w, Refused)
      else
        var paid := AddToWallet(w.(auctions := w.auctions - {id}), buyer, -price);
        (AddToWallet(paid, w.auctions[id].seller, price - Tax(price)), Sold(price))
  }

  // Duels between players

  predicate NotZeroed(w: World, id: Id) {
    id in w.players && !w.players[id].banned
  }

  function DoStartDuel(w: World, left: Id, right: Id, newId: Id): (r: (World, Response))
    ensures SameMarket(w, r.0) && SameSwitches(w, r.0)
    ensures SameNpcs(w, r.0)
    ensures Grows(w, r.0)
  {
    if !NotZeroed(w, left) || !NotZeroed(w, right) then (w, Refused)
    else
      (w.(duels := w.duels[newId := Duel(left, right, 100, 100, false, false, None)],
          issued := w.issued + {newId}),
       Done)
  }

  /** What an action takes from the defender; a raised defence halves it once. */
  function Damage(action: Action, roll: int, bonus: int, defended: bool, least: int): int {
    var full := (if action.Script? then 10 + action.nameLength % 17 else roll) + bonus;
    if defended then Max(full / 2, least) else full
  }

  function Struck(d: Duel, actorIsLeft: bool, action: Action, roll: int): Duel {
    if action.Defend? then
      if actorIsLeft then d.(leftDefending := true) else d.(rightDefending := true)
    else
      var least := if action.Script? then 4 else 5;
      if actorIsLeft then
        d.(rightHp := d.rightHp - Damage(action, roll, 0, d.rightDefending, least),
           leftDefending := false, rightDefending := false)
      else
        d.(leftHp := d.leftHp - Damage(action, roll, 0, d.leftDefending, least),
           leftDefending := false, rightDefending := false)
  }

  /** The duel once a participant has had a turn. */
  function AfterTurn(d: Duel, actor: Id, action: Action, roll: int): Duel {
    Struck(d, actor == d.left, action, roll).(lastActor := Some(actor))
  }

  /** A defeat: three deaths end a hardcore account. */
  function Died(p: Player): Player {
    p.(deaths := p.deaths + 1, banned := p.banned || (p.tier.Hardcore? && p.deaths + 1 >= 3))
  }

  function Defeated(w: World, id: Id): (w': World)
    ensures OnlyPlayers(w, w')
  {
    if id in w.players then UpdatePlayer(w, id, Died(w.players[id])) else w
  }

  /** The end of a duel: the side with more health is paid, the other dies. */
  function FinishDuel(w: World, id: Id, d: Duel): (r: (World, Response))
    ensures r.0 == w.(players := r.0.players, duels := w.duels - {id})
    ensures r.0.players.Keys == w.players.Keys
  {
    var (winner, loser) := if d.leftHp > d.rightHp then (d.left, d.right) else (d.right, d.left);
    (Defeated(AddToWallet(w.(duels := w.duels - {id}), winner, 40), loser), DuelOver(winner, loser))
  }

  function DoDuelAction(w: World, id: Id, actor: Id, action: Action, roll: int): (r: (World, Response))
    ensures SameMarket(w, r.0) && SameSwitches(w, r.0)
    ensures SameNpcs(w, r.0)
    ensures Grows(w, r.0)
  {
    if id !in w.duels || (actor != w.duels[id].left && actor != w.duels[id].right) then (w, Refused)
    else
      hide AfterTurn;
      var d := AfterTurn(w.duels[id], actor, action, roll);
      if d.leftHp <= 0 || d.rightHp <= 0 then FinishDuel(w, id, d)
      else (w.(duels := w.duels[id := d]), Done)
  }

  // Duels against NPCs, and their succession

  function DoStartNpcDuel(w: World, player: Id, callsign: string, newId: Id): (r: (World, Response))
    ensures SameMarket(w, r.0) && SameSwitches(w, r.0)
    ensures r.0.duels == w.duels
    ensures Grows(w, r.0)
  {
    if callsign !in w.npcs then (w, Refused)
    else
      var duel := NpcDuel(player, callsign, 100, w.npcs[callsign].ScaledHp(), false, false, false);
      (w.(npcDuels := w.npcDuels[newId := duel],
          issued := w.issued + {newId}),
       Done)
  }

  /** The player's half of a turn. */
  function PlayerTurn(d: NpcDuel, n: Npc, action: Action, roll: int): NpcDuel {
    if action.Defend? then d.(playerDefending := true)
    else
      var bonus := if d.bonusReady then n.bonusDamage else 0;
      d.(npcHp := d.npcHp - Damage(action, roll, bonus, d.npcDefending, 5),
         npcDefending := false, playerDefending := false, bonusReady := false)
  }

  /** The NPC's half: it raises its defence or strikes. */
  function NpcTurn(d: NpcDuel, npcDefends: bool, npcRoll: int): NpcDuel {
    if npcDefends then d.(npcDefending := true)
    else
      d.(playerHp := d.playerHp - (if d.playerDefending then Max(npcRoll / 2, 5) else npcRoll),
         playerDefending := false)
  }

  /** The name a role goes by in a generation: `pool.get(gen.min(len - 1))`. */
  function PoolName(pool: seq<string>, generation: nat): string
    requires pool != []
  {
    pool[Min(generation, |pool| - 1)]
  }

  function Successor(n: Npc): Npc
    requires n.pool != []
  {
    n.(timesDefeated := n.timesDefeated + 1, generation := n.generation + 1,
       name := PoolName(n.pool, n.generation + 1))
  }

  function DefeatEntry(n: Npc, victor: string): HistoryEntry {
    HistoryEntry(n.name + " defeated by " + victor, n.name, n.role, n.generation, victor)
  }

  function SuccessionEntry(n: Npc): HistoryEntry {
    HistoryEntry(n.name + " assumes role of " + n.role + " (Gen " + Decimal(n.generation) + ")",
                 n.name, n.role, n.generation, "")
  }

  function NpcDefeated(w: World, player: Id, callsign: string): (w': World)
    requires callsign in w.npcs
    ensures w' == w.(players := w'.players, npcs := w'.npcs, history := w'.history)
    ensures w'.players.Keys == w.players.Keys && w'.npcs.Keys == w.npcs.Keys
  {
    var n := w.npcs[callsign];
    var paid := AddToWallet(w, player, n.reward);
    var victor := if player in paid.players then paid.players[player].displayName else "";
    var recorded := paid.(history := paid.history + [DefeatEntry(n, victor)]);
    if n.hasSuccessors && n.pool != [] then
      var next := Successor(n);
      recorded.(npcs := recorded.npcs[callsign := next], history := recorded.history + [SuccessionEntry(next)])
    else recorded
  }

  function DoNpcAction(w: World, id: Id, player: Id, action: Action, roll: int, npcDefends: bool, npcRoll: int)
      : (r: (World, Response))
    ensures SameMarket(w, r.0) && SameSwitches(w, r.0)
    ensures r.0.duels == w.duels
    ensures Grows(w, r.0)
  {
    if id !in w.npcDuels || w.npcDuels[id].player != player || w.npcDuels[id].callsign !in w.npcs then (w, Refused)
    else
      hide PlayerTurn, NpcTurn, OnlyPlayers;
      var callsign := w.npcDuels[id].callsign;
      var d := PlayerTurn(w.npcDuels[id], w.npcs[callsign], action, roll);
      var over := w.(npcDuels := w.npcDuels - {id});
      if d.npcHp <= 0 then (NpcDefeated(over, player, callsign), NpcDuelOver(true))
      else
        var d' := NpcTurn(d, npcDefends, npcRoll);
        if d'.playerHp <= 0 then (Defeated(over, player), NpcDuelOver(false))
        else (w.(npcDuels := w.npcDuels[id := d']), Done)
  }

  function DoSolveBonus(w: World, id: Id, player: Id, solved: bool): (r: (World, Response))
    ensures SameMarket(w, r.0) && SameSwitches(w, r.0)
    ensures r.0.duels == w.duels
    ensures Grows(w, r.0)
  {
    if id !in w.npcDuels || w.npcDuels[id].player != player || w.npcDuels[id].callsign !in w.npcs then (w, Refused)
    else if solved then (w.(npcDuels := w.npcDuels[id := w.npcDuels[id].(bonusReady := true)]), Done)
    else (w, Done)
  }

  // Modes

  /** `netcity_gate_reason` finds nothing to object to. */
  predicate GateOpen(w: World, id: Id, offered: set<string>) {
    && id in w.players
    && KEYS_VAULT in w.players[id].completed
    && w.players[id].completed * StarterCodes() != {}
    && w.players[id].registered * offered != {}
    && !w.players[id].banned
  }

  function DoSwitchRead(w: World, player: Id, newId: Id): (r: (World, Response))
    ensures SameArena(w, r.0) && SameMarket(w, r.0)
    ensures r.0.players == w.players
    ensures Grows(w, r.0)
  {
    if !NotZeroed(w, player) then (w, Refused)
    else
      (w.(switches := w.switches[newId := Switch(player, w.players[player].observed, false)],
          issued := w.issued + {newId}),
       Done)
  }

  function DoSwitchGate(w: World, call: Id): (r: (World, Response))
    ensures SameArena(w, r.0) && SameMarket(w, r.0)
    ensures r.0.players == w.players
    ensures Grows(w, r.0)
  {
    if call !in w.switches || w.switches[call].passed then (w, Refused)
    else if !GateOpen(w, w.switches[call].player, w.switches[call].offered) then
      (w.(switches := w.switches - {call}), Refused)
    else (w.(switches := w.switches[call := w.switches[call].(passed := true)]), Done)
  }

  function SetMode(w: World, player: Id, mode: Mode): (r: (World, Response))
    ensures SameArena(w, r.0) && SameMarket(w, r.0) && SameSwitches(w, r.0)
    ensures Grows(w, r.0)
  {
    if !NotZeroed(w, player) then (w, Refused)
    else (UpdatePlayer(w, player, w.players[player].(mode := mode)), Done)
  }

  function DoSwitchInstall(w: World, call: Id): (r: (World, Response))
    ensures SameArena(w, r.0) && SameMarket(w, r.0)
    ensures Grows(w, r.0)
  {
    if call !in w.switches || !w.switches[call].passed then (w, Refused)
    else SetMode(w.(switches := w.switches - {call}), w.switches[call].player, NetCity)
  }

  function DoPlainSwitch(w: World, player: Id, mode: Mode): (r: (World, Response))
    ensures SameArena(w, r.0) && SameMarket(w, r.0) && SameSwitches(w, r.0)
    ensures Grows(w, r.0)
  {
    if mode.NetCity? then (w, Refused) else SetMode(w, player, mode)
  }

  // Steps and runs

  predicate AccountEvent(e: Event) {
    e.Login? || e.RegisterKey? || e.CompleteMission? || e.Ban? || e.SetTier? || e.ClaimDaily? || e.StyleBonus?
  }

  predicate MarketEvent(e: Event) { e.CreateListing? || e.PlaceBid? || e.Buyout? }

  predicate DuelEvent(e: Event) { e.StartDuel? || e.DuelAction? }

  predicate NpcEvent(e: Event) { e.StartNpcDuel? || e.NpcAction? || e.SolveBonus? }

  predicate ModeEvent(e: Event) { e.SwitchRead? || e.SwitchGate? || e.SwitchInstall? || e.PlainSwitch? }

  function AccountStep(w: World, e: Event): (r: (World, Response))
    requires AccountEvent(e)
    ensures SameArena(w, r.0) && SameMarket(w, r.0) && SameSwitches(w, r.0)
    ensures Grows(w, r.0)
  {
    match e
    case Login(username, remoteIp, offered, newId) => DoLogin(w, username, remoteIp, offered, newId)
    case RegisterKey(player, key) => DoRegisterKey(w, player, key)
    case CompleteMission(player, code) => DoCompleteMission(w, player, code)
    case Ban(player) => DoBan(w, player)
    case SetTier(player, tier) => DoSetTier(w, player, tier)
    case ClaimDaily(player, day) => DoClaimDaily(w, player, day)
    case StyleBonus(player, day, reward) => DoStyleBonus(w, player, day, reward)
  }

  function MarketStep(w: World, e: Event): (r: (World, Response))
    requires MarketEvent(e)
    ensures SameArena(w, r.0) && SameSwitches(w, r.0)
    ensures Grows(w, r.0)
  {
    match e
    case CreateListing(seller, startPrice, buyoutPrice, now, newId) =>
      DoCreateListing(w, seller, startPrice, buyoutPrice, now, newId)
    case PlaceBid(bidder, listing, amount, now) => DoPlaceBid(w, bidder, listing, amount, now)
    case Buyout(buyer, listing) => DoBuyout(w, buyer, listing)
  }

  function DuelStep(w: World, e: Event): (r: (World, Response))
    requires DuelEvent(e)
    ensures SameMarket(w, r.0) && SameSwitches(w, r.0)
    ensures SameNpcs(w, r.0)
    ensures Grows(w, r.0)
  {
    match e
    case StartDuel(left, right, newId) => DoStartDuel(w, left, right, newId)
    case DuelAction(duel, actor, action, roll) => DoDuelAction(w, duel, actor, action, roll)
  }

  function NpcStep(w: World, e: Event): (r: (World, Response))
    requires NpcEvent(e)
    ensures SameMarket(w, r.0) && SameSwitches(w, r.0)
    ensures r.0.duels == w.duels
    ensures Grows(w, r.0)
  {
    match e
    case StartNpcDuel(player, callsign, newId) => DoStartNpcDuel(w, player, callsign, newId)
    case NpcAction(duel, player, action, roll, npcDefends, npcRoll) =>
      DoNpcAction(w, duel, player, action, roll, npcDefends, npcRoll)
    case SolveBonus(duel, player, solved) => DoSolveBonus(w, duel, player, solved)
  }

  function ModeStep(w: World, e: Event): (r: (World, Response))
    requires ModeEvent(e)
    ensures SameArena(w, r.0) && SameMarket(w, r.0)
    ensures Grows(w, r.0)
  {
    match e
    case SwitchRead(player, newId) => DoSwitchRead(w, player, newId)
    case SwitchGate(call) => DoSwitchGate(w, call)
    case SwitchInstall(call) => DoSwitchInstall(w, call)
    case PlainSwitch(player, mode) => DoPlainSwitch(w, player, mode)
  }

  function Step(w: World, e: Event): (r: (World, Response))
    ensures Grows(w, r.0)
  {
    if AccountEvent(e) then AccountStep(w, e)
    else if MarketEvent(e) then MarketStep(w, e)
    else if DuelEvent(e) then DuelStep(w, e)
    else if NpcEvent(e) then NpcStep(w, e)
    else ModeStep(w, e)
  }

  predicate Fresh(w: World, id: Id) {
    id !in w.issued
  }

  /** Identifiers are fresh and dice fall in the ranges they are rolled from. */
  predicate Enabled(w: World, e: Event) {
    match e
    case Login(_, _, _, newId) => Fresh(w, newId)
    case CreateListing(_, _, _, _, newId) => Fresh(w, newId)
    case StartDuel(_, _, newId) => Fresh(w, newId)
    case StartNpcDuel(_, _, newId) => Fresh(w, newId)
    case SwitchRead(_, newId) => Fresh(w, newId)
    case DuelAction(_, _, action, roll) => action.Attack? ==> 14 <= roll <= 30
    case NpcAction(id, _, action, roll, _, npcRoll) =>
      && (action.Attack? ==> 14 <= roll <= 30)
      && (id in w.npcDuels && w.npcDuels[id].callsign in w.npcs ==>
            var n := w.npcs[w.npcDuels[id].callsign];
            n.ScaledLo() <= npcRoll <= n.ScaledHi())
    case _ => true
  }

  /** What the seed table promises about one NPC. */
  predicate GoodSeed(n: Npc) {
    && n.generation == 1 && n.timesDefeated == 0
    && n.pool != [] && n.name == n.pool[0]
    && 1 <= n.baseHp <= 300
    && 0 <= n.damageLo <= n.damageHi
    && n.bonusDamage >= 0 && n.reward >= 0
  }

  ghost predicate GoodSeeds(npcs: map<string, Npc>) {
    && (forall c | c in npcs :: GoodSeed(npcs[c]))
    && (forall c, d | c in npcs && d in npcs && c != d :: npcs[c].role != npcs[d].role)
  }

  function Init(npcs: map<string, Npc>, missions: set<string>): World {
    World(map[], map[], missions, npcs, map[], [], map[], map[], {}, map[], map[], {})
  }

  ghost predicate Follows(ws: seq<World>, es: seq<Event>, i: nat)
    requires |ws| == |es| + 1 && i < |es|
  {
    Enabled(ws[i], es[i]) && ws[i + 1] == Step(ws[i], es[i]).0
  }

  /** The states passed through while the events happen one after the other, in any order the
      callers choose. */
  ghost predicate IsRun(ws: seq<World>, es: seq<Event>) {
    && |ws| == |es| + 1
    && GoodSeeds(ws[0].npcs) && ws[0] == Init(ws[0].npcs, ws[0].missions)
    && forall i | 0 <= i < |es| :: Follows(ws, es, i)
  }

  /** A run goes on with any call that can happen in its last state. */
  lemma RunGoesOn(ws: seq<World>, es: seq<Event>, e: Event)
    requires IsRun(ws, es) && Enabled(ws[|es|], e)
    ensures IsRun(ws + [Step(ws[|es|], e).0], es + [e])
  {
    hide Step, Enabled, Init, GoodSeeds;
    var ws', es' := ws + [Step(ws[|es|], e).0], es + [e];
    forall i | 0 <= i < |es'|
      ensures Follows(ws', es', i)
    {
      assert i < |es| ==> Follows(ws, es, i);
    }
  }

  ghost predicate Stepped(ws: seq<World>, es: seq<Event>, i: nat)
    requires |ws| == |es| + 1 && i < |es|
  {
    ws[i + 1] == Step(ws[i], es[i]).0
  }

  /** The states that follow one another from `w`. */
  ghost function StatesFrom(w: World, es: seq<Event>): (ws: seq<World>)
    ensures |ws| == |es| + 1 && ws[0] == w
    ensures forall i | 0 <= i < |es| :: Stepped(ws, es, i)
    decreases |es|
  {
    if es == [] then [w]
    else
      var rest := StatesFrom(Step(w, es[0]).0, es[1..]);
      var ws := [w] + rest;
      assert forall i | 0 <= i < |es| :: Stepped(ws, es, i) by {
        forall i | 0 <= i < |es|
          ensures Stepped(ws, es, i)
        {
          assert i > 0 ==> Stepped(rest, es[1..], i - 1);
        }
      }
      ws
  }
}
