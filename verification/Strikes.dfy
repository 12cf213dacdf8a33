/** Every blow of every duel, exactly, and health replayed from the calls. */
module Strikes {
  import opened Base
  import opened World
  import opened Duels

  /** What an action takes from a side without defence. */
  function Force(action: Action, roll: int): int {
    match action
    case Attack => roll
    case Script(nameLength) => 10 + nameLength % 17
    case Defend => 0
  }

  /** A raised defence halves a blow, which still takes something. */
  function Softened(force: int, floor: int): int {
    if force / 2 >= floor then force / 2 else floor
  }

  function BlowTo(action: Action, roll: int, guarded: bool): int {
    if action.Defend? || !guarded then Force(action, roll)
    else Softened(Force(action, roll), if action.Script? then 4 else 5)
  }

  // Beginnings

  /** A duel between players begins if and only if both exist and neither is banned, with both
      sides at full health and no defence up. */
  lemma StartExact(w: World, e: Event)
    requires e.StartDuel?
    ensures var (w', r) := Step(w, e);
            var both := e.left in w.players && e.right in w.players
                        && !w.players[e.left].banned && !w.players[e.right].banned;
            if both then
              r == Done && w' == w.(issued := w.issued + {e.newId},
                                    duels := w.duels[e.newId := Duel(e.left, e.right, 100, 100, false, false, None)])
            else r == Refused && w' == w
  {
    hide AccountStep, MarketStep, NpcStep, ModeStep, Grows, SameNpcs, SameMarket, SameSwitches;
  }

  /** One against an NPC begins if and only if there is such an NPC, the player at full health and
      the NPC at its scaled health. */
  lemma StartNpcExact(w: World, e: Event)
    requires e.StartNpcDuel?
    ensures var (w', r) := Step(w, e);
            if e.callsign !in w.npcs then r == Refused && w' == w
            else
              var n := w.npcs[e.callsign];
              var hp := if n.baseHp + 5 * n.timesDefeated <= 300 then n.baseHp + 5 * n.timesDefeated else 300;
              && r == Done
              && w' == w.(issued := w.issued + {e.newId},
                          npcDuels := w.npcDuels[e.newId :=
                            NpcDuel(e.player, e.callsign, 100, hp, false, false, false)])
  {
    hide AccountStep, MarketStep, DuelStep, ModeStep, Grows, SameMarket, SameSwitches;
  }

  // One turn between players

  lemma TurnExact(d: Duel, actor: Id, action: Action, roll: int)
    ensures var byLeft := actor == d.left;
            AfterTurn(d, actor, action, roll)
            == Duel(d.left, d.right,
                    d.leftHp - (if byLeft then 0 else BlowTo(action, roll, d.leftDefending)),
                    d.rightHp - (if byLeft then BlowTo(action, roll, d.rightDefending) else 0),
                    action.Defend? && (byLeft || d.leftDefending),
                    action.Defend? && (!byLeft || d.rightDefending),
                    Some(actor))
  {
  }

  /** An accepted action takes exactly its force from the other side, or half of it if that side
      has its defence up. A blow brings both defences down, a defence raises one's own, and the
      duel goes on if and only if both sides have health left. */
  lemma StrikeExact(w: World, e: Event)
    requires e.DuelAction? && Accepted(w, e)
    ensures var (w', r) := Step(w, e);
            var d, byLeft := w.duels[e.duel], e.actor == w.duels[e.duel].left;
            var leftHp := d.leftHp - (if byLeft then 0 else BlowTo(e.action, e.roll, d.leftDefending));
            var rightHp := d.rightHp - (if byLeft then BlowTo(e.action, e.roll, d.rightDefending) else 0);
            if leftHp <= 0 || rightHp <= 0 then r.DuelOver? && w'.duels == w.duels - {e.duel}
            else
              && r == Done
              && w'.duels == w.duels[e.duel :=
                   Duel(d.left, d.right, leftHp, rightHp, e.action.Defend? && (byLeft || d.leftDefending),
                        e.action.Defend? && (!byLeft || d.rightDefending), Some(e.actor))]
  {
    hide DuelStep, AfterTurn, BlowTo;
    DuelActionEffect(w, e);
    TurnExact(w.duels[e.duel], e.actor, e.action, e.roll);
  }

  // Replaying a duel between players

  predicate Acts(w: World, e: Event, id: Id, byLeft: bool) {
    e.DuelAction? && e.duel == id && Accepted(w, e) && (e.actor == w.duels[id].left) == byLeft
  }

  /** A side's defence is up if it was raised after the side's last blow and the last blow
      against it. */
  ghost function GuardUp(ws: seq<World>, es: seq<Event>, id: Id, left: bool, n: nat): bool
    requires |ws| == |es| + 1 && n <= |es|
  {
    if n == 0 then false
    else if Acts(ws[n - 1], es[n - 1], id, left) then es[n - 1].action.Defend?
    else if Acts(ws[n - 1], es[n - 1], id, !left) && !es[n - 1].action.Defend? then false
    else GuardUp(ws, es, id, left, n - 1)
  }

  /** What a side has suffered: the blows of the other, each softened if its defence was up. */
  ghost function Suffered(ws: seq<World>, es: seq<Event>, id: Id, left: bool, n: nat): int
    requires |ws| == |es| + 1 && n <= |es|
  {
    if n == 0 then 0
    else
      Suffered(ws, es, id, left, n - 1)
      + (if Acts(ws[n - 1], es[n - 1], id, !left) then
           BlowTo(es[n - 1].action, es[n - 1].roll, GuardUp(ws, es, id, left, n - 1))
         else 0)
  }

  ghost predicate Replayed(w: World, id: Id, left: int, right: int, leftUp: bool, rightUp: bool) {
    if id in w.duels then
      var d := w.duels[id];
      d.leftHp == 100 - left && d.rightHp == 100 - right && d.leftDefending == leftUp && d.rightDefending == rightUp
    else id in w.issued || (left == 0 && right == 0 && !leftUp && !rightUp)
  }

  lemma OtherEventsKeepSides(w: World, e: Event, id: Id)
    requires IdsIssued(w) && Enabled(w, e) && !(e.DuelAction? && e.duel == id && Accepted(w, e))
    ensures var w' := Step(w, e).0;
            && (id in w.issued ==> id in w'.issued && (id in w'.duels <==> id in w.duels))
            && (id in w.duels ==> w'.duels[id] == w.duels[id])
            && (id !in w.issued && id in w'.duels ==>
                  var d := w'.duels[id];
                  d.leftHp == 100 && d.rightHp == 100 && !d.leftDefending && !d.rightDefending)
  {
    hide AccountStep, MarketStep, NpcStep, ModeStep;
    if e.DuelAction? {
      hide DuelStep, AfterTurn;
      DuelActionEffect(w, e);
    }
  }

  lemma ReplayStep(w: World, e: Event, id: Id, left: int, right: int, leftUp: bool, rightUp: bool)
    requires IdsIssued(w) && Enabled(w, e) && Replayed(w, id, left, right, leftUp, rightUp)
    ensures var byLeft, byRight := Acts(w, e, id, true), Acts(w, e, id, false);
            Replayed(Step(w, e).0, id,
                     left + (if byRight then BlowTo(e.action, e.roll, leftUp) else 0),
                     right + (if byLeft then BlowTo(e.action, e.roll, rightUp) else 0),
                     if byLeft then e.action.Defend? else if byRight && !e.action.Defend? then false else leftUp,
                     if byRight then e.action.Defend? else if byLeft && !e.action.Defend? then false else rightUp)
  {
    hide Step, Enabled, BlowTo;
    if e.DuelAction? && e.duel == id && Accepted(w, e) {
      StrikeExact(w, e);
      assert id in Step(w, e).0.issued;
    } else {
      OtherEventsKeepSides(w, e, id);
    }
  }

  /** At any point of any run, a duel's health is a hundred less what each side has suffered, and
      a defence is up exactly when the calls so far say so. */
  lemma {:induction false} HealthReplays(ws: seq<World>, es: seq<Event>, id: Id, n: nat)
    requires IsRun(ws, es) && n <= |es|
    ensures Replayed(ws[n], id, Suffered(ws, es, id, true, n), Suffered(ws, es, id, false, n),
                     GuardUp(ws, es, id, true, n), GuardUp(ws, es, id, false, n))
  {
    hide Step, Enabled, Acts, BlowTo;
    if n > 0 {
      hide Replayed, IdsIssued;
      HealthReplays(ws, es, id, n - 1);
      RunCounted(ws, es, id, n - 1);
      assert Follows(ws, es, n - 1);
      ActsOnOneSide(ws[n - 1], es[n - 1], id);
      ReplayStep(ws[n - 1], es[n - 1], id, Suffered(ws, es, id, true, n - 1), Suffered(ws, es, id, false, n - 1),
                 GuardUp(ws, es, id, true, n - 1), GuardUp(ws, es, id, false, n - 1));
    }
  }

  lemma ActsOnOneSide(w: World, e: Event, id: Id)
    ensures !(Acts(w, e, id, true) && Acts(w, e, id, false))
  {
  }

  /** A duel ends with the call that brings what one side has suffered to a hundred, and with no
      other. */
  lemma DuelEndsExactly(ws: seq<World>, es: seq<Event>, id: Id, n: nat)
    requires IsRun(ws, es) && n < |es| && es[n].DuelAction? && es[n].duel == id && Accepted(ws[n], es[n])
    ensures Step(ws[n], es[n]).1.DuelOver?
       <==> Suffered(ws, es, id, true, n + 1) >= 100 || Suffered(ws, es, id, false, n + 1) >= 100
    ensures !Step(ws[n], es[n]).1.DuelOver? ==> Step(ws[n], es[n]).1 == Done
  {
    HealthReplays(ws, es, id, n);
    hide Step, IsRun, BlowTo;
    StrikeExact(ws[n], es[n]);
  }

  lemma BlowAtMostThirty(action: Action, roll: int, guarded: bool)
    requires action.Attack? ==> 14 <= roll <= 30
    ensures action.Defend? ==> BlowTo(action, roll, guarded) == 0
    ensures 0 <= BlowTo(action, roll, guarded) <= 30
  {
  }

  lemma {:induction false} SufferedAtMost(ws: seq<World>, es: seq<Event>, id: Id, left: bool, n: nat)
    requires IsRun(ws, es) && n <= |es|
    ensures Suffered(ws, es, id, left, n) <= 30 * Blows(ws, es, id, !left, n)
  {
    hide Step, BlowTo, GuardUp;
    if n > 0 {
      SufferedAtMost(ws, es, id, left, n - 1);
      assert Follows(ws, es, n - 1);
      var e := es[n - 1];
      if Acts(ws[n - 1], e, id, !left) {
        BlowAtMostThirty(e.action, e.roll, GuardUp(ws, es, id, left, n - 1));
      }
    }
  }

  /** No duel ends before one side has struck four times. */
  lemma FourBlowsAtLeast(ws: seq<World>, es: seq<Event>, id: Id, n: nat)
    requires IsRun(ws, es) && n < |es| && es[n].DuelAction? && es[n].duel == id && Accepted(ws[n], es[n])
    requires Step(ws[n], es[n]).1.DuelOver?
    ensures Blows(ws, es, id, true, n + 1) >= 4 || Blows(ws, es, id, false, n + 1) >= 4
  {
    DuelEndsExactly(ws, es, id, n);
    SufferedAtMost(ws, es, id, true, n + 1);
    SufferedAtMost(ws, es, id, false, n + 1);
  }

  // One round against an NPC

  /** The player's blow, with a bonus if one is ready. */
  function BlowToNpc(action: Action, roll: int, bonus: int, guarded: bool): int {
    if action.Defend? then 0
    else if guarded then Softened(Force(action, roll) + bonus, 5)
    else Force(action, roll) + bonus
  }

  /** The NPC's blow: softened if the player spends the same call on a defence. */
  function BlowToPlayer(action: Action, npcDefends: bool, npcRoll: int): int {
    if npcDefends then 0 else if action.Defend? then Softened(npcRoll, 5) else npcRoll
  }

  lemma RoundTurns(d: NpcDuel, n: Npc, action: Action, roll: int, npcDefends: bool, npcRoll: int)
    ensures var bonus := if d.bonusReady then n.bonusDamage else 0;
            var npcHp := d.npcHp - BlowToNpc(action, roll, bonus, d.npcDefending);
            var mid := PlayerTurn(d, n, action, roll);
            && mid.npcHp == npcHp
            && NpcTurn(mid, npcDefends, npcRoll)
               == NpcDuel(d.player, d.callsign, d.playerHp - BlowToPlayer(action, npcDefends, npcRoll), npcHp,
                          action.Defend? && npcDefends, npcDefends || (action.Defend? && d.npcDefending),
                          action.Defend? && d.bonusReady)
  {
  }

  /** A round takes exactly the player's blow from the NPC, and, if it stands, exactly its blow
      from the player. A ready bonus adds the NPC's bonus to one blow and is spent with it. */
  lemma RoundExact(w: World, e: Event)
    requires e.NpcAction? && NpcAccepted(w, e)
    ensures var (w', r) := Step(w, e);
            var d := w.npcDuels[e.npcDuel];
            var bonus := if d.bonusReady then w.npcs[d.callsign].bonusDamage else 0;
            var npcHp := d.npcHp - BlowToNpc(e.action, e.roll, bonus, d.npcDefending);
            var playerHp := d.playerHp - BlowToPlayer(e.action, e.npcDefends, e.npcRoll);
            if npcHp <= 0 || playerHp <= 0 then r == NpcDuelOver(npcHp <= 0) && w'.npcDuels == w.npcDuels - {e.npcDuel}
            else
              && r == Done
              && w'.npcDuels == w.npcDuels[e.npcDuel :=
                   NpcDuel(d.player, d.callsign, playerHp, npcHp, e.action.Defend? && e.npcDefends,
                           e.npcDefends || (e.action.Defend? && d.npcDefending), e.action.Defend? && d.bonusReady)]
  {
    hide NpcStep, PlayerTurn, NpcTurn, BlowToNpc, BlowToPlayer;
    NpcActionEffect(w, e);
    var d := w.npcDuels[e.npcDuel];
    RoundTurns(d, w.npcs[d.callsign], e.action, e.roll, e.npcDefends, e.npcRoll);
  }

  predicate Solves(w: World, e: Event, id: Id) {
    && e.SolveBonus? && e.npcDuel == id && e.solved
    && id in w.npcDuels && w.npcDuels[id].player == e.player && w.npcDuels[id].callsign in w.npcs
  }

  /** Solving the challenge readies the bonus, for the player of the duel only; nothing else
      about any duel changes. */
  lemma SolveExact(w: World, e: Event)
    requires e.SolveBonus?
    ensures var (w', r) := Step(w, e);
            && w' == w.(npcDuels := w'.npcDuels)
            && (r == Done <==> e.npcDuel in w.npcDuels && w.npcDuels[e.npcDuel].player == e.player
                               && w.npcDuels[e.npcDuel].callsign in w.npcs)
            && w'.npcDuels == if Solves(w, e, e.npcDuel)
                              then w.npcDuels[e.npcDuel := w.npcDuels[e.npcDuel].(bonusReady := true)]
                              else w.npcDuels
  {
    hide AccountStep, MarketStep, DuelStep, ModeStep, Grows, SameMarket, SameSwitches;
  }

  // Replaying a duel against an NPC

  predicate Rounds(w: World, e: Event, id: Id) {
    e.NpcAction? && e.npcDuel == id && NpcAccepted(w, e)
  }

  /** The bonus is ready if the challenge was solved after the player's last blow. */
  ghost function BonusReady(ws: seq<World>, es: seq<Event>, id: Id, n: nat): bool
    requires |ws| == |es| + 1 && n <= |es|
  {
    if n == 0 then false
    else if Solves(ws[n - 1], es[n - 1], id) then true
    else if Rounds(ws[n - 1], es[n - 1], id) && !es[n - 1].action.Defend? then false
    else BonusReady(ws, es, id, n - 1)
  }

  /** The NPC's defence is up if it was raised in the round of the player's last blow or since. */
  ghost function NpcGuardUp(ws: seq<World>, es: seq<Event>, id: Id, n: nat): bool
    requires |ws| == |es| + 1 && n <= |es|
  {
    if n == 0 then false
    else if Rounds(ws[n - 1], es[n - 1], id) then
      es[n - 1].npcDefends || (es[n - 1].action.Defend? && NpcGuardUp(ws, es, id, n - 1))
    else NpcGuardUp(ws, es, id, n - 1)
  }

  ghost function NpcSuffered(ws: seq<World>, es: seq<Event>, id: Id, n: nat): int
    requires |ws| == |es| + 1 && n <= |es|
  {
    if n == 0 then 0
    else
      var w, e := ws[n - 1], es[n - 1];
      NpcSuffered(ws, es, id, n - 1)
      + (if Rounds(w, e, id) then
           var bonus := if BonusReady(ws, es, id, n - 1) then w.npcs[w.npcDuels[id].callsign].bonusDamage else 0;
           BlowToNpc(e.action, e.roll, bonus, NpcGuardUp(ws, es, id, n - 1))
         else 0)
  }

  ghost function PlayerSuffered(ws: seq<World>, es: seq<Event>, id: Id, n: nat): int
    requires |ws| == |es| + 1 && n <= |es|
  {
    if n == 0 then 0
    else
      var e := es[n - 1];
      PlayerSuffered(ws, es, id, n - 1)
      + (if Rounds(ws[n - 1], e, id) then BlowToPlayer(e.action, e.npcDefends, e.npcRoll) else 0)
  }

  /** Who fights whom, and with how much health the NPC began: the seed's, five more for each
      defeat by then, three hundred at most. */
  ghost function Opening(ws: seq<World>, es: seq<Event>, id: Id, n: nat): Option<(Id, string, int)>
    requires |ws| == |es| + 1 && n <= |es|
  {
    if n == 0 then None
    else
      var w, e := ws[n - 1], es[n - 1];
      if e.StartNpcDuel? && e.newId == id && e.callsign in w.npcs then
        var hp := w.npcs[e.callsign].baseHp + 5 * w.npcs[e.callsign].timesDefeated;
        Some((e.player, e.callsign, if hp <= 300 then hp else 300))
      else Opening(ws, es, id, n - 1)
  }

  ghost predicate NpcReplayed(w: World, id: Id, opening: Option<(Id, string, int)>, npc: int, player: int,
                              npcUp: bool, bonus: bool)
  {
    if id in w.npcDuels then
      && opening.Some?
      && var d := w.npcDuels[id];
         && d.player == opening.value.0 && d.callsign == opening.value.1
         && d.npcHp == opening.value.2 - npc && d.playerHp == 100 - player
         && d.npcDefending == npcUp && d.bonusReady == bonus
    else id in w.issued || (npc == 0 && player == 0 && !npcUp && !bonus)
  }

  lemma OtherNpcEvents(w: World, e: Event, id: Id)
    requires IdsIssued(w) && Enabled(w, e) && !Rounds(w, e, id) && !Solves(w, e, id)
    ensures var w' := Step(w, e).0;
            && (id in w.issued ==> id in w'.issued && (id in w'.npcDuels <==> id in w.npcDuels))
            && (id in w.npcDuels ==> w'.npcDuels[id] == w.npcDuels[id])
            && (e.StartNpcDuel? && e.newId == id && e.callsign in w.npcs ==>
                  id !in w.issued && id in w'.npcDuels
                  && w'.npcDuels[id]
                     == NpcDuel(e.player, e.callsign, 100, w.npcs[e.callsign].ScaledHp(), false, false, false))
            && (id !in w.issued && id in w'.npcDuels ==> e.StartNpcDuel? && e.newId == id && e.callsign in w.npcs)
  {
    hide AccountStep, MarketStep, DuelStep, ModeStep, SameMarket, SameSwitches;
    if e.NpcAction? {
      hide NpcStep, PlayerTurn, NpcTurn;
      NpcActionEffect(w, e);
    } else if e.SolveBonus? {
      hide NpcStep;
      SolveExact(w, e);
    }
  }

  lemma NpcReplayStep(w: World, e: Event, id: Id, opening: Option<(Id, string, int)>, npc: int, player: int,
                      npcUp: bool, bonus: bool)
    requires IdsIssued(w) && Enabled(w, e) && NpcReplayed(w, id, opening, npc, player, npcUp, bonus)
    ensures var starts := e.StartNpcDuel? && e.newId == id && e.callsign in w.npcs;
            var opening' := if starts then Some((e.player, e.callsign, w.npcs[e.callsign].ScaledHp())) else opening;
            if Rounds(w, e, id) then
              var extra := if bonus then w.npcs[w.npcDuels[id].callsign].bonusDamage else 0;
              NpcReplayed(Step(w, e).0, id, opening', npc + BlowToNpc(e.action, e.roll, extra, npcUp),
                          player + BlowToPlayer(e.action, e.npcDefends, e.npcRoll),
                          e.npcDefends || (e.action.Defend? && npcUp), e.action.Defend? && bonus)
            else NpcReplayed(Step(w, e).0, id, opening', npc, player, npcUp, bonus || Solves(w, e, id))
  {
    hide Step, Enabled, BlowToNpc, BlowToPlayer;
    if Rounds(w, e, id) {
      RoundExact(w, e);
    } else if Solves(w, e, id) {
      SolveExact(w, e);
    } else {
      OtherNpcEvents(w, e, id);
      assert id in w.npcDuels ==> id in w.issued;
    }
  }

  /** At any point of any run, an NPC duel's two health values are what both began with less what
      they have suffered, and defence and bonus stand exactly when the calls so far say so. */
  lemma {:induction false} NpcHealthReplays(ws: seq<World>, es: seq<Event>, id: Id, n: nat)
    requires IsRun(ws, es) && n <= |es|
    ensures NpcReplayed(ws[n], id, Opening(ws, es, id, n), NpcSuffered(ws, es, id, n), PlayerSuffered(ws, es, id, n),
                        NpcGuardUp(ws, es, id, n), BonusReady(ws, es, id, n))
  {
    hide Step, Enabled, Rounds, Solves, BlowToNpc, BlowToPlayer;
    if n > 0 {
      hide NpcReplayed, IdsIssued;
      NpcHealthReplays(ws, es, id, n - 1);
      RunNpcCounted(ws, es, id, n - 1);
      assert Follows(ws, es, n - 1);
      RoundsOrSolves(ws[n - 1], es[n - 1], id);
      NpcReplayStep(ws[n - 1], es[n - 1], id, Opening(ws, es, id, n - 1), NpcSuffered(ws, es, id, n - 1),
                    PlayerSuffered(ws, es, id, n - 1), NpcGuardUp(ws, es, id, n - 1), BonusReady(ws, es, id, n - 1));
    }
  }

  lemma RoundsOrSolves(w: World, e: Event, id: Id)
    ensures Rounds(w, e, id) ==> !Solves(w, e, id) && e.NpcAction?
    ensures Solves(w, e, id) ==> e.SolveBonus?
  {
  }

  /** It ends, won, with the round in which the NPC has suffered all it began with; lost, with the
      one in which the player has suffered a hundred; and with no other. */
  lemma NpcDuelEndsExactly(ws: seq<World>, es: seq<Event>, id: Id, n: nat)
    requires IsRun(ws, es) && n < |es| && es[n].NpcAction? && es[n].npcDuel == id && NpcAccepted(ws[n], es[n])
    ensures Opening(ws, es, id, n).Some?
    ensures var down := NpcSuffered(ws, es, id, n + 1) >= Opening(ws, es, id, n).value.2;
            Step(ws[n], es[n]).1 ==
              if down then NpcDuelOver(true)
              else if PlayerSuffered(ws, es, id, n + 1) >= 100 then NpcDuelOver(false)
              else Done
  {
    NpcHealthReplays(ws, es, id, n);
    hide Step, IsRun, BlowToNpc, BlowToPlayer;
    RoundExact(ws[n], es[n]);
  }
}
