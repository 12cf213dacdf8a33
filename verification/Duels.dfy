/** Duels: health and damage stay in range, the finishing actor wins, every duel ends within a
    bounded number of blows, and pays once. */
module Duels {
  import opened Base
  import opened World

  // Ranges

  ghost predicate DuelOk(d: Duel) {
    1 <= d.leftHp <= 100 && 1 <= d.rightHp <= 100
  }

  ghost predicate NpcDuelOk(d: NpcDuel) {
    1 <= d.playerHp <= 100 && 1 <= d.npcHp <= 300
  }

  ghost predicate NpcOk(n: Npc) {
    && 1 <= n.baseHp <= 300
    && 0 <= n.damageLo <= n.damageHi
    && n.bonusDamage >= 0
    && n.pool != []
  }

  ghost predicate AllInRange(w: World) {
    && (forall id | id in w.duels :: DuelOk(w.duels[id]))
    && (forall id | id in w.npcDuels :: NpcDuelOk(w.npcDuels[id]))
    && (forall c | c in w.npcs :: NpcOk(w.npcs[c]))
  }

  /** The range an NPC's damage is rolled from is never empty and never above 50. */
  lemma ScaledDamageRange(n: Npc)
    requires NpcOk(n)
    ensures 0 <= n.ScaledLo() <= n.ScaledHi() <= 50
    ensures 1 <= n.ScaledHp() <= 300
  {
  }

  /** Every blow takes at least 5, whatever is rolled, scripted or defended. */
  lemma DamageAtLeastFive(action: Action, roll: int, bonus: int, defended: bool, least: int)
    requires !action.Defend? && (action.Attack? ==> 14 <= roll <= 30) && bonus >= 0
    ensures Damage(action, roll, bonus, defended, least) >= 5
  {
  }

  lemma StruckOk(d: Duel, actorIsLeft: bool, action: Action, roll: int)
    requires DuelOk(d) && (action.Attack? ==> 14 <= roll <= 30)
    ensures var d' := Struck(d, actorIsLeft, action, roll);
            && d'.left == d.left && d'.right == d.right
            && d'.leftHp <= 100 && d'.rightHp <= 100
            && (if actorIsLeft then d'.leftHp == d.leftHp else d'.rightHp == d.rightHp)
            && (!action.Defend? ==>
                  if actorIsLeft then d'.rightHp <= d.rightHp - 5 else d'.leftHp <= d.leftHp - 5)
            && (action.Defend? ==> d'.leftHp == d.leftHp && d'.rightHp == d.rightHp)
  {
    if !action.Defend? {
      var least := if action.Script? then 4 else 5;
      DamageAtLeastFive(action, roll, 0, d.rightDefending, least);
      DamageAtLeastFive(action, roll, 0, d.leftDefending, least);
    }
  }

  // One call on a duel between players

  predicate Accepted(w: World, e: Event)
    requires e.DuelAction?
  {
    e.duel in w.duels && (e.actor == w.duels[e.duel].left || e.actor == w.duels[e.duel].right)
  }

  /** What a duel action does to the table of duels. */
  lemma DuelActionEffect(w: World, e: Event)
    requires e.DuelAction?
    ensures var (w', r) := DuelStep(w, e);
            && (!Accepted(w, e) ==> w' == w && r.Refused?)
            && (Accepted(w, e) ==>
                  var d := AfterTurn(w.duels[e.duel], e.actor, e.action, e.roll);
                  if d.leftHp <= 0 || d.rightHp <= 0 then
                    && w'.duels == w.duels - {e.duel}
                    && r == (if d.leftHp > d.rightHp then DuelOver(d.left, d.right) else DuelOver(d.right, d.left))
                  else w'.duels == w.duels[e.duel := d] && r == Done)
  {
    hide AfterTurn, Defeated, AddToWallet, Grows, SameMarket, SameSwitches, OnlyPlayers;
  }

  /** Whoever strikes the last blow wins, and the other participant loses. */
  lemma FinisherWins(w: World, e: Event)
    requires AllInRange(w) && Enabled(w, e) && e.DuelAction? && Step(w, e).1.DuelOver?
    ensures Step(w, e).1.winner == e.actor
    ensures Step(w, e).1.loser ==
            if e.actor == w.duels[e.duel].left then w.duels[e.duel].right else w.duels[e.duel].left
  {
    hide DuelStep, Struck;
    DuelActionEffect(w, e);
    StruckOk(w.duels[e.duel], e.actor == w.duels[e.duel].left, e.action, e.roll);
  }

  /** How a player's record looks after a duel: the winner is paid, the loser has died once
      more, and a third death ends a hardcore account. */
  function AfterDuel(p: Player, won: int, lost: bool): Player {
    var paid := p.(wallet := p.wallet + won);
    if lost then
      paid.(deaths := p.deaths + 1, banned := p.banned || (p.tier.Hardcore? && p.deaths >= 2))
    else paid
  }

  /** A finished duel is gone; the winner named has 40 more, the loser named one death more, and
      no one else's record differs. */
  lemma DuelOutcome(w: World, e: Event)
    requires e.DuelAction? && Step(w, e).1.DuelOver?
    ensures var (w', r) := Step(w, e);
            && w' == w.(duels := w.duels - {e.duel}, players := w'.players)
            && w'.players.Keys == w.players.Keys
            && forall id | id in w.players ::
                 w'.players[id] == AfterDuel(w.players[id], if id == r.winner then 40 else 0, id == r.loser)
  {
    hide AfterTurn, Grows, SameMarket, SameSwitches, AddToWallet, Defeated;
    var r := Step(w, e).1;
    var over := w.(duels := w.duels - {e.duel});
    PaidAndDied(over, r.winner, r.loser);
  }

  lemma PaidAndDied(w: World, winner: Id, loser: Id)
    ensures var w' := Defeated(AddToWallet(w, winner, 40), loser);
            && w' == w.(players := w'.players) && w'.players.Keys == w.players.Keys
            && forall id | id in w.players ::
                 w'.players[id] == AfterDuel(w.players[id], if id == winner then 40 else 0, id == loser)
  {
    hide AddToWallet, Defeated;
    AddToWalletExact(w, winner, 40);
    DeathRecorded(AddToWallet(w, winner, 40), loser);
  }

  lemma DeathRecorded(w: World, player: Id)
    ensures var w' := Defeated(w, player);
            forall id | id in w.players :: w'.players[id] == AfterDuel(w.players[id], 0, id == player)
  {
    if player in w.players {
      DeathOnRecord(w.players[player]);
    }
    forall id | id in w.players
      ensures Defeated(w, player).players[id] == AfterDuel(w.players[id], 0, id == player)
    {
      hide Died;
      NothingOnRecord(w.players[id]);
    }
  }

  lemma DeathOnRecord(p: Player)
    ensures Died(p) == AfterDuel(p, 0, true)
  {
  }

  lemma NothingOnRecord(p: Player)
    ensures AfterDuel(p, 0, false) == p
  {
  }

  lemma DuelStepInRange(w: World, e: Event)
    requires AllInRange(w) && Enabled(w, e) && DuelEvent(e)
    ensures AllInRange(DuelStep(w, e).0)
  {
    if e.DuelAction? {
      hide DuelStep, Struck;
      DuelActionEffect(w, e);
      if Accepted(w, e) {
        StruckOk(w.duels[e.duel], e.actor == w.duels[e.duel].left, e.action, e.roll);
      }
    }
  }

  // One call on a duel against an NPC

  lemma PlayerTurnOk(d: NpcDuel, n: Npc, action: Action, roll: int)
    requires NpcDuelOk(d) && NpcOk(n) && (action.Attack? ==> 14 <= roll <= 30)
    ensures var d' := PlayerTurn(d, n, action, roll);
            && d'.player == d.player && d'.callsign == d.callsign && d'.playerHp == d.playerHp
            && (if action.Defend? then d'.npcHp == d.npcHp else d'.npcHp <= d.npcHp - 5)
  {
    if !action.Defend? {
      DamageAtLeastFive(action, roll, if d.bonusReady then n.bonusDamage else 0, d.npcDefending, 5);
    }
  }

  lemma NpcTurnOk(d: NpcDuel, npcDefends: bool, npcRoll: int)
    requires npcRoll >= 0 && d.playerHp <= 100
    ensures var d' := NpcTurn(d, npcDefends, npcRoll);
            && d'.player == d.player && d'.callsign == d.callsign && d'.npcHp == d.npcHp
            && d'.playerHp <= 100
  {
  }

  predicate NpcAccepted(w: World, e: Event)
    requires e.NpcAction?
  {
    e.npcDuel in w.npcDuels && w.npcDuels[e.npcDuel].player == e.player && w.npcDuels[e.npcDuel].callsign in w.npcs
  }

  /** What an NPC duel action does to the table of NPC duels. */
  lemma NpcActionEffect(w: World, e: Event)
    requires e.NpcAction?
    ensures var (w', r) := NpcStep(w, e);
            && (!NpcAccepted(w, e) ==> w' == w && r.Refused?)
            && (NpcAccepted(w, e) ==>
                  var d := PlayerTurn(w.npcDuels[e.npcDuel], w.npcs[w.npcDuels[e.npcDuel].callsign], e.action, e.roll);
                  var d' := NpcTurn(d, e.npcDefends, e.npcRoll);
                  if d.npcHp <= 0 then w'.npcDuels == w.npcDuels - {e.npcDuel} && r == NpcDuelOver(true)
                  else if d'.playerHp <= 0 then w'.npcDuels == w.npcDuels - {e.npcDuel} && r == NpcDuelOver(false)
                  else w'.npcDuels == w.npcDuels[e.npcDuel := d'] && r == Done)
  {
    hide PlayerTurn, NpcTurn, NpcDefeated, Defeated, Grows, SameMarket, SameSwitches;
  }

  /** A finished duel against an NPC is gone. Winning pays that NPC's reward and leaves the
      player's life alone; losing costs a life and changes neither NPCs nor history. */
  lemma NpcDuelOutcome(w: World, e: Event)
    requires e.NpcAction? && Step(w, e).1.NpcDuelOver?
    ensures NpcAccepted(w, e)
    ensures var (w', r) := Step(w, e);
            var n := w.npcs[w.npcDuels[e.npcDuel].callsign];
            && w'.npcDuels == w.npcDuels - {e.npcDuel}
            && w'.players.Keys == w.players.Keys
            && (!r.playerWon ==> w'.npcs == w.npcs && w'.history == w.history)
            && forall id | id in w.players ::
                 w'.players[id] ==
                   if id == e.player then AfterDuel(w.players[id], if r.playerWon then n.reward else 0, !r.playerWon)
                   else w.players[id]
  {
    hide PlayerTurn, NpcTurn, Grows, SameMarket, SameSwitches, PoolName, DefeatEntry, SuccessionEntry;
    hide NpcDefeated, Defeated;
    var callsign := w.npcDuels[e.npcDuel].callsign;
    var over := w.(npcDuels := w.npcDuels - {e.npcDuel});
    RewardOnly(over, e.player, callsign);
    DeathRecorded(over, e.player);
  }

  lemma RewardOnly(w: World, player: Id, callsign: string)
    requires callsign in w.npcs
    ensures var w' := NpcDefeated(w, player, callsign);
            forall id | id in w.players ::
              w'.players[id] == if id == player then AfterDuel(w.players[id], w.npcs[callsign].reward, false)
                                else w.players[id]
  {
    hide PoolName, DefeatEntry, SuccessionEntry;
  }

  lemma NpcDefeatedKeepsOk(w: World, player: Id, callsign: string)
    requires callsign in w.npcs && forall c | c in w.npcs :: NpcOk(w.npcs[c])
    ensures forall c | c in NpcDefeated(w, player, callsign).npcs :: NpcOk(NpcDefeated(w, player, callsign).npcs[c])
  {
    hide DefeatEntry, SuccessionEntry, PoolName;
  }

  lemma NpcsStayOk(w: World, e: Event)
    requires NpcEvent(e) && forall c | c in w.npcs :: NpcOk(w.npcs[c])
    ensures forall c | c in NpcStep(w, e).0.npcs :: NpcOk(NpcStep(w, e).0.npcs[c])
  {
    hide PlayerTurn, NpcTurn, Defeated, AddToWallet, NpcDefeated, NpcOk;
    if e.NpcAction? && NpcAccepted(w, e) {
      NpcDefeatedKeepsOk(w.(npcDuels := w.npcDuels - {e.npcDuel}), e.player, w.npcDuels[e.npcDuel].callsign);
    }
  }

  lemma NpcStepInRange(w: World, e: Event)
    requires AllInRange(w) && Enabled(w, e) && NpcEvent(e)
    ensures AllInRange(NpcStep(w, e).0)
  {
    NpcsStayOk(w, e);
    if e.NpcAction? {
      hide NpcStep, PlayerTurn, NpcTurn;
      NpcActionEffect(w, e);
      if NpcAccepted(w, e) {
        var d, n := w.npcDuels[e.npcDuel], w.npcs[w.npcDuels[e.npcDuel].callsign];
        ScaledDamageRange(n);
        PlayerTurnOk(d, n, e.action, e.roll);
        NpcTurnOk(PlayerTurn(d, n, e.action, e.roll), e.npcDefends, e.npcRoll);
      }
    } else if e.StartNpcDuel? && e.callsign in w.npcs {
      ScaledDamageRange(w.npcs[e.callsign]);
    }
  }

  lemma StepInRange(w: World, e: Event)
    requires AllInRange(w) && Enabled(w, e)
    ensures AllInRange(Step(w, e).0)
  {
    hide AccountStep, MarketStep, DuelStep, NpcStep, ModeStep, Enabled, Grows, SameMarket, SameSwitches;
    if DuelEvent(e) {
      DuelStepInRange(w, e);
    } else if NpcEvent(e) {
      NpcStepInRange(w, e);
    }
  }

  /** In every reachable state all health is in range and every NPC can be fought. */
  lemma {:induction false} RunInRange(ws: seq<World>, es: seq<Event>, n: nat)
    requires IsRun(ws, es) && n <= |es|
    ensures AllInRange(ws[n])
  {
    if n == 0 {
      assert forall c | c in ws[0].npcs :: GoodSeed(ws[0].npcs[c]);
    } else {
      hide Step, Enabled;
      RunInRange(ws, es, n - 1);
      assert Follows(ws, es, n - 1);
      StepInRange(ws[n - 1], es[n - 1]);
    }
  }

  // How many blows a duel can take

  predicate IsBlow(w: World, e: Event, id: Id, byLeft: bool) {
    && e.DuelAction? && e.duel == id && !e.action.Defend?
    && Accepted(w, e) && (e.actor == w.duels[id].left) == byLeft
  }

  /** The blows struck by one side of a duel in the first `n` calls. */
  ghost function Blows(ws: seq<World>, es: seq<Event>, id: Id, byLeft: bool, n: nat): nat
    requires |ws| == |es| + 1 && n <= |es|
  {
    if n == 0 then 0
    else Blows(ws, es, id, byLeft, n - 1) + (if IsBlow(ws[n - 1], es[n - 1], id, byLeft) then 1 else 0)
  }

  predicate Pays(w: World, e: Event, id: Id) {
    e.DuelAction? && e.duel == id && Step(w, e).1.DuelOver?
  }

  ghost function Payouts(ws: seq<World>, es: seq<Event>, id: Id, n: nat): nat
    requires |ws| == |es| + 1 && n <= |es|
  {
    if n == 0 then 0 else Payouts(ws, es, id, n - 1) + (if Pays(ws[n - 1], es[n - 1], id) then 1 else 0)
  }

  /** What a duel's counters say about it, by whether it is active, over, or not yet begun. */
  ghost predicate Counted(w: World, id: Id, left: nat, right: nat, payouts: nat) {
    if id in w.duels then
      5 * left <= 100 - w.duels[id].rightHp && 5 * right <= 100 - w.duels[id].leftHp && payouts == 0
    else if id in w.issued then left + right <= 39 && payouts <= 1
    else left == 0 && right == 0 && payouts == 0
  }

  lemma OtherEventsKeepDuel(w: World, e: Event, id: Id)
    requires IdsIssued(w) && Enabled(w, e) && !(e.DuelAction? && e.duel == id)
    ensures var w' := Step(w, e).0;
            && (id in w.issued ==> (id in w'.duels <==> id in w.duels) && id in w'.issued)
            && (id in w.duels ==> w'.duels[id] == w.duels[id])
            && (id !in w.issued && id in w'.duels ==> w'.duels[id].leftHp == 100 && w'.duels[id].rightHp == 100)
  {
    hide AccountStep, MarketStep, NpcStep, ModeStep;
    if e.DuelAction? {
      hide DuelStep, AfterTurn;
      DuelActionEffect(w, e);
    }
  }

  lemma CountAction(w: World, e: Event, left: nat, right: nat)
    requires e.DuelAction? && AllInRange(w) && Enabled(w, e) && IdsIssued(w) && Counted(w, e.duel, left, right, 0)
    requires Accepted(w, e)
    ensures var (w', r) := DuelStep(w, e);
            Counted(w', e.duel,
                    left + (if IsBlow(w, e, e.duel, true) then 1 else 0),
                    right + (if IsBlow(w, e, e.duel, false) then 1 else 0),
                    if r.DuelOver? then 1 else 0)
  {
    hide DuelStep, Struck, Damage;
    DuelActionEffect(w, e);
    StruckOk(w.duels[e.duel], e.actor == w.duels[e.duel].left, e.action, e.roll);
  }

  lemma CountStep(w: World, e: Event, id: Id, left: nat, right: nat, payouts: nat)
    requires IdsIssued(w) && AllInRange(w) && Enabled(w, e) && Counted(w, id, left, right, payouts)
    ensures Counted(Step(w, e).0, id,
                    left + (if IsBlow(w, e, id, true) then 1 else 0),
                    right + (if IsBlow(w, e, id, false) then 1 else 0),
                    payouts + (if Pays(w, e, id) then 1 else 0))
  {
    hide DuelStep, AccountStep, MarketStep, NpcStep, ModeStep, Enabled, AllInRange;
    if e.DuelAction? && e.duel == id {
      if Accepted(w, e) {
        CountAction(w, e, left, right);
      } else {
        hide Counted;
        DuelActionEffect(w, e);
      }
    } else {
      hide Step;
      OtherEventsKeepDuel(w, e, id);
    }
  }

  lemma {:induction false} RunCounted(ws: seq<World>, es: seq<Event>, id: Id, n: nat)
    requires IsRun(ws, es) && n <= |es|
    ensures IdsIssued(ws[n])
    ensures Counted(ws[n], id, Blows(ws, es, id, true, n), Blows(ws, es, id, false, n), Payouts(ws, es, id, n))
  {
    hide Step, Enabled, IsBlow, Pays, AllInRange;
    if n > 0 {
      hide Counted, IdsIssued;
      RunCounted(ws, es, id, n - 1);
      RunInRange(ws, es, n - 1);
      assert Follows(ws, es, n - 1);
      CountStep(ws[n - 1], es[n - 1], id, Blows(ws, es, id, true, n - 1), Blows(ws, es, id, false, n - 1),
                Payouts(ws, es, id, n - 1));
    }
  }

  /** Over any run, however dice fall and calls interleave: a duel between players takes at
      most 39 blows, at most 19 on either side while it lasts, and pays at most once. */
  lemma DuelIsBounded(ws: seq<World>, es: seq<Event>, id: Id, n: nat)
    requires IsRun(ws, es) && n <= |es|
    ensures Blows(ws, es, id, true, n) + Blows(ws, es, id, false, n) <= 39
    ensures id in ws[n].duels ==> Blows(ws, es, id, true, n) <= 19 && Blows(ws, es, id, false, n) <= 19
    ensures Payouts(ws, es, id, n) <= 1
  {
    hide Step;
    RunCounted(ws, es, id, n);
    RunInRange(ws, es, n);
  }

  // The same for duels against NPCs

  predicate IsNpcBlow(w: World, e: Event, id: Id) {
    e.NpcAction? && e.npcDuel == id && !e.action.Defend? && NpcAccepted(w, e)
  }

  ghost function NpcBlows(ws: seq<World>, es: seq<Event>, id: Id, n: nat): nat
    requires |ws| == |es| + 1 && n <= |es|
  {
    if n == 0 then 0 else NpcBlows(ws, es, id, n - 1) + (if IsNpcBlow(ws[n - 1], es[n - 1], id) then 1 else 0)
  }

  predicate NpcEnds(w: World, e: Event, id: Id) {
    e.NpcAction? && e.npcDuel == id && Step(w, e).1.NpcDuelOver?
  }

  ghost function NpcEndings(ws: seq<World>, es: seq<Event>, id: Id, n: nat): nat
    requires |ws| == |es| + 1 && n <= |es|
  {
    if n == 0 then 0 else NpcEndings(ws, es, id, n - 1) + (if NpcEnds(ws[n - 1], es[n - 1], id) then 1 else 0)
  }

  ghost predicate NpcCounted(w: World, id: Id, blows: nat, endings: nat) {
    if id in w.npcDuels then 5 * blows <= 300 - w.npcDuels[id].npcHp && endings == 0
    else if id in w.issued then blows <= 60 && endings <= 1
    else blows == 0 && endings == 0
  }

  lemma SideEventsKeepNpcDuel(w: World, e: Event, id: Id)
    requires NpcEvent(e) && !e.NpcAction?
    ensures var w' := NpcStep(w, e).0;
            && (id in w.issued && Enabled(w, e) ==> (id in w'.npcDuels <==> id in w.npcDuels))
            && (id in w.npcDuels && id in w.issued && Enabled(w, e) ==>
                  w'.npcDuels[id].npcHp == w.npcDuels[id].npcHp)
            && (id !in w.issued && IdsIssued(w) && id in w'.npcDuels ==>
                  e.StartNpcDuel? && e.callsign in w.npcs && w'.npcDuels[id].npcHp == w.npcs[e.callsign].ScaledHp())
  {
  }

  lemma OtherActionKeepsNpcDuel(w: World, e: Event, id: Id)
    requires e.NpcAction? && e.npcDuel != id
    ensures var w' := NpcStep(w, e).0;
            && (id in w'.npcDuels <==> id in w.npcDuels)
            && (id in w.npcDuels ==> w'.npcDuels[id] == w.npcDuels[id])
  {
    hide NpcStep, PlayerTurn, NpcTurn, NpcAccepted;
    NpcActionEffect(w, e);
  }

  lemma OtherEventsKeepNpcDuel(w: World, e: Event, id: Id)
    requires IdsIssued(w) && AllInRange(w) && Enabled(w, e) && !(e.NpcAction? && e.npcDuel == id)
    ensures var w' := Step(w, e).0;
            && (id in w.issued ==> (id in w'.npcDuels <==> id in w.npcDuels) && id in w'.issued)
            && (id in w.npcDuels ==> w'.npcDuels[id].npcHp == w.npcDuels[id].npcHp)
            && (id !in w.issued && id in w'.npcDuels ==> w'.npcDuels[id].npcHp <= 300)
  {
    hide AccountStep, MarketStep, DuelStep, NpcStep, ModeStep;
    if e.NpcAction? {
      OtherActionKeepsNpcDuel(w, e, id);
    } else if NpcEvent(e) {
      hide Enabled;
      SideEventsKeepNpcDuel(w, e, id);
    }
  }

  lemma NpcCountAction(w: World, e: Event, blows: nat)
    requires e.NpcAction? && AllInRange(w) && Enabled(w, e) && IdsIssued(w) && NpcCounted(w, e.npcDuel, blows, 0)
    requires NpcAccepted(w, e)
    ensures var (w', r) := NpcStep(w, e);
            NpcCounted(w', e.npcDuel,
                       blows + (if IsNpcBlow(w, e, e.npcDuel) then 1 else 0),
                       if r.NpcDuelOver? then 1 else 0)
  {
    hide NpcStep, PlayerTurn, NpcTurn;
    NpcActionEffect(w, e);
    var d, n := w.npcDuels[e.npcDuel], w.npcs[w.npcDuels[e.npcDuel].callsign];
    ScaledDamageRange(n);
    PlayerTurnOk(d, n, e.action, e.roll);
    NpcTurnOk(PlayerTurn(d, n, e.action, e.roll), e.npcDefends, e.npcRoll);
  }

  lemma NpcCountStep(w: World, e: Event, id: Id, blows: nat, endings: nat)
    requires IdsIssued(w) && AllInRange(w) && Enabled(w, e) && NpcCounted(w, id, blows, endings)
    ensures NpcCounted(Step(w, e).0, id,
                       blows + (if IsNpcBlow(w, e, id) then 1 else 0),
                       endings + (if NpcEnds(w, e, id) then 1 else 0))
  {
    hide NpcStep, AccountStep, MarketStep, DuelStep, ModeStep, Enabled, AllInRange;
    if e.NpcAction? && e.npcDuel == id {
      if NpcAccepted(w, e) {
        NpcCountAction(w, e, blows);
      } else {
        hide NpcCounted;
        NpcActionEffect(w, e);
      }
    } else {
      hide Step;
      OtherEventsKeepNpcDuel(w, e, id);
    }
  }

  lemma {:induction false} RunNpcCounted(ws: seq<World>, es: seq<Event>, id: Id, n: nat)
    requires IsRun(ws, es) && n <= |es|
    ensures IdsIssued(ws[n])
    ensures NpcCounted(ws[n], id, NpcBlows(ws, es, id, n), NpcEndings(ws, es, id, n))
  {
    hide Step, Enabled, IsNpcBlow, NpcEnds, AllInRange;
    if n > 0 {
      hide NpcCounted, IdsIssued;
      RunNpcCounted(ws, es, id, n - 1);
      RunInRange(ws, es, n - 1);
      assert Follows(ws, es, n - 1);
      NpcCountStep(ws[n - 1], es[n - 1], id, NpcBlows(ws, es, id, n - 1), NpcEndings(ws, es, id, n - 1));
    }
  }

  /** A duel against an NPC takes at most 60 of the player's blows, and ends at most once. */
  lemma NpcDuelIsBounded(ws: seq<World>, es: seq<Event>, id: Id, n: nat)
    requires IsRun(ws, es) && n <= |es|
    ensures NpcBlows(ws, es, id, n) <= 60
    ensures NpcEndings(ws, es, id, n) <= 1
  {
    hide Step;
    RunNpcCounted(ws, es, id, n);
    RunInRange(ws, es, n);
  }
}
