/** The longest duels. Runs that reach the bounds on blows, in which every blow is struck with the
    weakest script against a raised defence. */
module LongDuels {
  import opened Base
  import opened World
  import opened Duels

  // Counts in a longer run

  lemma {:induction false} BlowsSoFar(ws: seq<World>, es: seq<Event>, ws': seq<World>, es': seq<Event>,
                                      id: Id, byLeft: bool, n: nat)
    requires |ws| == |es| + 1 && |ws'| == |es'| + 1 && ws <= ws' && es <= es' && n <= |es|
    ensures Blows(ws', es', id, byLeft, n) == Blows(ws, es, id, byLeft, n)
  {
    hide IsBlow;
    if n > 0 {
      BlowsSoFar(ws, es, ws', es', id, byLeft, n - 1);
    }
  }

  lemma {:induction false} PayoutsSoFar(ws: seq<World>, es: seq<Event>, ws': seq<World>, es': seq<Event>,
                                        id: Id, n: nat)
    requires |ws| == |es| + 1 && |ws'| == |es'| + 1 && ws <= ws' && es <= es' && n <= |es|
    ensures Payouts(ws', es', id, n) == Payouts(ws, es, id, n)
  {
    hide Pays;
    if n > 0 {
      PayoutsSoFar(ws, es, ws', es', id, n - 1);
    }
  }

  lemma {:induction false} NpcBlowsSoFar(ws: seq<World>, es: seq<Event>, ws': seq<World>, es': seq<Event>,
                                         id: Id, n: nat)
    requires |ws| == |es| + 1 && |ws'| == |es'| + 1 && ws <= ws' && es <= es' && n <= |es|
    ensures NpcBlows(ws', es', id, n) == NpcBlows(ws, es, id, n)
  {
    hide IsNpcBlow;
    if n > 0 {
      NpcBlowsSoFar(ws, es, ws', es', id, n - 1);
    }
  }

  /** What the run and its counts look like with one call more. */
  lemma OneMore(ws: seq<World>, es: seq<Event>, e: Event, id: Id) returns (ws': seq<World>, es': seq<Event>)
    requires IsRun(ws, es) && Enabled(ws[|es|], e)
    ensures ws' == ws + [Step(ws[|es|], e).0] && es' == es + [e] && IsRun(ws', es')
    ensures forall byLeft :: Blows(ws', es', id, byLeft, |es'|)
                          == Blows(ws, es, id, byLeft, |es|) + if IsBlow(ws[|es|], e, id, byLeft) then 1 else 0
    ensures Payouts(ws', es', id, |es'|) == Payouts(ws, es, id, |es|) + if Pays(ws[|es|], e, id) then 1 else 0
    ensures NpcBlows(ws', es', id, |es'|)
         == NpcBlows(ws, es, id, |es|) + if IsNpcBlow(ws[|es|], e, id) then 1 else 0
  {
    hide Step, Enabled, IsBlow, Pays, IsNpcBlow;
    ws', es' := ws + [Step(ws[|es|], e).0], es + [e];
    RunGoesOn(ws, es, e);
    forall byLeft
      ensures Blows(ws', es', id, byLeft, |es'|)
           == Blows(ws, es, id, byLeft, |es|) + if IsBlow(ws[|es|], e, id, byLeft) then 1 else 0
    {
      BlowsSoFar(ws, es, ws', es', id, byLeft, |es|);
    }
    PayoutsSoFar(ws, es, ws', es', id, |es|);
    NpcBlowsSoFar(ws, es, ws', es', id, |es|);
  }

  // Between players

  /** A script called with an empty name does 10, and 5 to a defender. */
  const FEEBLE: Action := Script(0)

  /** A duel in which every blow so far has taken 5. */
  ghost predicate Fighting(ws: seq<World>, es: seq<Event>, id: Id, left: nat, right: nat) {
    && IsRun(ws, es) && id in ws[|es|].duels
    && ws[|es|].duels[id].left != ws[|es|].duels[id].right
    && ws[|es|].duels[id].rightHp == 100 - 5 * left && ws[|es|].duels[id].leftHp == 100 - 5 * right
    && Blows(ws, es, id, true, |es|) == left && Blows(ws, es, id, false, |es|) == right
    && Payouts(ws, es, id, |es|) == 0
  }

  /** One side raises its defence and the other strikes. */
  lemma ExchangeTurns(d: Duel, byLeft: bool)
    requires d.left != d.right && DuelOk(d)
    ensures var (striker, other) := if byLeft then (d.left, d.right) else (d.right, d.left);
            var d1 := AfterTurn(d, other, Defend, 0);
            var d2 := AfterTurn(d1, striker, FEEBLE, 0);
            && d1.left == d2.left == d.left && d1.right == d2.right == d.right
            && d1.leftHp == d.leftHp > 0 && d1.rightHp == d.rightHp > 0
            && d2.rightHp == d.rightHp - (if byLeft then 5 else 0)
            && d2.leftHp == d.leftHp - (if byLeft then 0 else 5)
  {
  }

  lemma ExchangeEffect(w: World, id: Id, byLeft: bool)
    requires id in w.duels && w.duels[id].left != w.duels[id].right && DuelOk(w.duels[id])
    ensures var d := w.duels[id];
            var guard := DuelAction(id, if byLeft then d.right else d.left, Defend, 0);
            var blow := DuelAction(id, if byLeft then d.left else d.right, FEEBLE, 0);
            var w1 := Step(w, guard).0;
            var (w2, r) := Step(w1, blow);
            && Enabled(w, guard) && Enabled(w1, blow)
            && !IsBlow(w, guard, id, true) && !IsBlow(w, guard, id, false) && !Pays(w, guard, id)
            && IsBlow(w1, blow, id, byLeft) && !IsBlow(w1, blow, id, !byLeft)
            && (if (if byLeft then d.rightHp else d.leftHp) <= 5 then r.DuelOver?
                else
                  && !r.DuelOver? && id in w2.duels && w2.duels[id].left == d.left && w2.duels[id].right == d.right
                  && w2.duels[id].rightHp == d.rightHp - (if byLeft then 5 else 0)
                  && w2.duels[id].leftHp == d.leftHp - (if byLeft then 0 else 5))
  {
    hide DuelStep, AccountStep, MarketStep, NpcStep, ModeStep, AfterTurn;
    var d := w.duels[id];
    ExchangeTurns(d, byLeft);
    var guard := DuelAction(id, if byLeft then d.right else d.left, Defend, 0);
    DuelActionEffect(w, guard);
    DuelActionEffect(Step(w, guard).0, DuelAction(id, if byLeft then d.left else d.right, FEEBLE, 0));
  }

  lemma Exchange(ws: seq<World>, es: seq<Event>, id: Id, byLeft: bool, left: nat, right: nat)
      returns (ws': seq<World>, es': seq<Event>)
    requires Fighting(ws, es, id, left, right)
    ensures |ws'| == |es'| + 1 && ws <= ws' && es <= es'
    ensures var left', right' := left + (if byLeft then 1 else 0), right + (if byLeft then 0 else 1);
            if left' >= 20 || right' >= 20 then
              && IsRun(ws', es') && Payouts(ws', es', id, |es'|) == 1
              && Blows(ws', es', id, true, |es'|) == left' && Blows(ws', es', id, false, |es'|) == right'
            else Fighting(ws', es', id, left', right')
  {
    hide Step, Enabled, IsBlow;
    RunInRange(ws, es, |es|);
    var w := ws[|es|];
    var d := w.duels[id];
    ExchangeEffect(w, id, byLeft);
    hide IsRun;
    var ws1, es1 := OneMore(ws, es, DuelAction(id, if byLeft then d.right else d.left, Defend, 0), id);
    ws', es' := OneMore(ws1, es1, DuelAction(id, if byLeft then d.left else d.right, FEEBLE, 0), id);
  }

  /** Exchanges until the given numbers of blows have been struck. */
  lemma {:induction false} FightOn(ws: seq<World>, es: seq<Event>, id: Id, left: nat, right: nat, left': nat,
                                   right': nat)
      returns (ws': seq<World>, es': seq<Event>)
    requires Fighting(ws, es, id, left, right) && left <= left' <= 19 && right <= right' <= 19
    ensures Fighting(ws', es', id, left', right')
    decreases left' - left + right' - right
  {
    hide Fighting;
    if left < left' {
      ws', es' := Exchange(ws, es, id, true, left, right);
      ws', es' := FightOn(ws', es', id, left + 1, right, left', right');
    } else if right < right' {
      ws', es' := Exchange(ws, es, id, false, left, right);
      ws', es' := FightOn(ws', es', id, left, right + 1, left', right');
    } else {
      ws', es' := ws, es;
    }
  }

  /** Nothing has been struck or paid yet. */
  ghost predicate Quiet(ws: seq<World>, es: seq<Event>, id: Id) {
    && IsRun(ws, es) && Payouts(ws, es, id, |es|) == 0 && NpcBlows(ws, es, id, |es|) == 0
    && Blows(ws, es, id, true, |es|) == 0 && Blows(ws, es, id, false, |es|) == 0
  }

  lemma StaysQuiet(ws: seq<World>, es: seq<Event>, e: Event, id: Id) returns (ws': seq<World>, es': seq<Event>)
    requires Quiet(ws, es, id) && Enabled(ws[|es|], e) && !e.DuelAction? && !e.NpcAction?
    ensures Quiet(ws', es', id) && ws'[|es'|] == Step(ws[|es|], e).0
  {
    hide Step, Enabled, Follows, Init, GoodSeeds;
    ws', es' := OneMore(ws, es, e, id);
  }

  /** Two players join, and the duel with identifier 2 begins. */
  lemma DuelBegins() returns (ws: seq<World>, es: seq<Event>)
    ensures Fighting(ws, es, 2, 0, 0)
  {
    var w := Init(map[], {});
    assert IsRun([w], []) && Quiet([w], [], 2);
    TwoJoin(w);
    hide Step, Enabled, IsRun, Init, IsBlow, Pays, IsNpcBlow;
    ws, es := StaysQuiet([w], [], Login("left", "10.0.0.1", {}, 0), 2);
    ws, es := StaysQuiet(ws, es, Login("right", "10.0.0.2", {}, 1), 2);
    ws, es := StaysQuiet(ws, es, StartDuel(0, 1, 2), 2);
  }

  lemma TwoJoin(w: World)
    requires w == Init(w.npcs, w.missions)
    ensures var left, right := Login("left", "10.0.0.1", {}, 0), Login("right", "10.0.0.2", {}, 1);
            var w1 := Step(w, left).0;
            var w2 := Step(w1, right).0;
            var w3 := Step(w2, StartDuel(0, 1, 2)).0;
            && Enabled(w, left) && Enabled(w1, right) && Enabled(w2, StartDuel(0, 1, 2))
            && 2 in w3.duels && w3.duels[2] == Duel(0, 1, 100, 100, false, false, None)
  {
    hide MarketStep, NpcStep, ModeStep, Grows, SameArena, SameMarket, SameSwitches;
    var left, right := Login("left", "10.0.0.1", {}, 0), Login("right", "10.0.0.2", {}, 1);
    var w1 := Step(w, left).0;
    assert w1.byUsername == map["left" := [0]] && w1.issued == {0} && NotZeroed(w1, 0);
    assert "right"[0] != "left"[0];
    var w2 := Step(w1, right).0;
    assert w2.issued == {0, 1} && NotZeroed(w2, 0) && NotZeroed(w2, 1);
  }

  /** The bounds of `DuelIsBounded` are reached: a duel that lasts through 19 blows on either
      side, and then ends with the 39th and pays. */
  lemma DuelBoundReached() returns (ws: seq<World>, es: seq<Event>, n: nat, id: Id)
    ensures IsRun(ws, es) && n <= |es|
    ensures id in ws[n].duels && Blows(ws, es, id, true, n) == 19 && Blows(ws, es, id, false, n) == 19
    ensures Blows(ws, es, id, true, |es|) + Blows(ws, es, id, false, |es|) == 39
    ensures Payouts(ws, es, id, |es|) == 1
  {
    id := 2;
    hide IsRun;
    var ws0, es0 := DuelBegins();
    var ws1, es1 := FightOn(ws0, es0, id, 0, 0, 19, 19);
    n := |es1|;
    ws, es := Exchange(ws1, es1, id, true, 19, 19);
    BlowsSoFar(ws1, es1, ws, es, id, true, n);
    BlowsSoFar(ws1, es1, ws, es, id, false, n);
    assert ws[n] == ws1[n];
  }

  // Against an NPC

  /** An NPC of the greatest health a seed table may give it. */
  function Giant(): Npc {
    Npc("Giant", "Giant", 1, 0, 300, 0, 0, 0, false, ["Giant"], 0)
  }

  /** A duel in which every blow of the player's has taken 5, and the NPC only defends. */
  ghost predicate Defying(ws: seq<World>, es: seq<Event>, id: Id, blows: nat) {
    && IsRun(ws, es) && NpcBlows(ws, es, id, |es|) == blows
    && Defies(ws[|es|], id, 300 - 5 * blows)
  }

  predicate Defies(w: World, id: Id, hp: int) {
    && "GIANT" in w.npcs && w.npcs["GIANT"] == Giant()
    && id in w.npcDuels && w.npcDuels[id].(playerDefending := false) == NpcDuel(0, "GIANT", 100, hp, false, true, false)
  }

  lemma TurnEffect(w: World, id: Id, hp: int)
    requires Defies(w, id, hp)
    ensures var e := NpcAction(id, 0, FEEBLE, 0, true, 0);
            var (w', r) := Step(w, e);
            && Enabled(w, e) && IsNpcBlow(w, e, id)
            && if hp <= 5 then r == NpcDuelOver(true) else Defies(w', id, hp - 5)
  {
    hide AccountStep, MarketStep, DuelStep, ModeStep, Grows, SameMarket, SameSwitches, NpcDefeated, Defeated;
  }

  lemma {:induction false} DefyOn(ws: seq<World>, es: seq<Event>, id: Id, blows: nat)
      returns (ws': seq<World>, es': seq<Event>)
    requires Defying(ws, es, id, blows) && blows <= 59
    ensures Defying(ws', es', id, 59)
    decreases 59 - blows
  {
    if blows == 59 {
      ws', es' := ws, es;
    } else {
      hide Step, Enabled, IsRun, IsNpcBlow, Defies;
      TurnEffect(ws[|es|], id, 300 - 5 * blows);
      ws', es' := OneMore(ws, es, NpcAction(id, 0, FEEBLE, 0, true, 0), id);
      ws', es' := DefyOn(ws', es', id, blows + 1);
    }
  }

  lemma OpeningEffect(w: World)
    requires w == Init(w.npcs, w.missions) && w.npcs == map["GIANT" := Giant()]
    ensures var join, start := Login("player", "10.0.0.1", {}, 0), StartNpcDuel(0, "GIANT", 1);
            var w1 := Step(w, join).0;
            var w2 := Step(w1, start).0;
            && Enabled(w, join) && Enabled(w1, start) && w2.npcs == w.npcs
            && 1 in w2.npcDuels && w2.npcDuels[1] == NpcDuel(0, "GIANT", 100, 300, false, false, false)
  {
    hide MarketStep, DuelStep, ModeStep, Grows, SameMarket, SameSwitches;
  }

  lemma GuardEffect(w: World, id: Id)
    requires "GIANT" in w.npcs && w.npcs["GIANT"] == Giant()
    requires id in w.npcDuels && w.npcDuels[id] == NpcDuel(0, "GIANT", 100, 300, false, false, false)
    ensures var e := NpcAction(id, 0, Defend, 0, true, 0);
            Enabled(w, e) && !IsNpcBlow(w, e, id) && Defies(Step(w, e).0, id, 300)
  {
    hide AccountStep, MarketStep, DuelStep, ModeStep, Grows, SameMarket, SameSwitches, NpcDefeated, Defeated;
  }

  /** A player joins, the duel with identifier 1 begins, and both sides raise their defence. */
  lemma NpcDuelBegins() returns (ws: seq<World>, es: seq<Event>)
    ensures Defying(ws, es, 1, 0)
  {
    var w := Init(map["GIANT" := Giant()], {});
    assert IsRun([w], []) && Quiet([w], [], 1);
    OpeningEffect(w);
    hide Step, Enabled, IsRun, Init, IsNpcBlow, Defies;
    ws, es := StaysQuiet([w], [], Login("player", "10.0.0.1", {}, 0), 1);
    ws, es := StaysQuiet(ws, es, StartNpcDuel(0, "GIANT", 1), 1);
    GuardEffect(ws[|es|], 1);
    ws, es := OneMore(ws, es, NpcAction(1, 0, Defend, 0, true, 0), 1);
  }

  lemma EndingCounts(ws: seq<World>, es: seq<Event>, e: Event, id: Id)
    requires IsRun(ws, es) && id in ws[|es|].npcDuels && Enabled(ws[|es|], e) && NpcEnds(ws[|es|], e, id)
    ensures var ws', es' := ws + [Step(ws[|es|], e).0], es + [e];
            NpcEndings(ws', es', id, |es'|) >= 1
  {
    hide Step, Enabled, Follows, Init, GoodSeeds, NpcEnds;
  }

  /** The bound of `NpcDuelIsBounded` is reached: a duel that ends with the player's 60th blow. */
  lemma NpcDuelBoundReached() returns (ws: seq<World>, es: seq<Event>, id: Id)
    ensures IsRun(ws, es)
    ensures NpcBlows(ws, es, id, |es|) == 60 && NpcEndings(ws, es, id, |es|) == 1
  {
    id := 1;
    var ws0, es0 := NpcDuelBegins();
    hide Step, Enabled, IsRun, IsNpcBlow, Defies;
    var ws1, es1 := DefyOn(ws0, es0, id, 0);
    TurnEffect(ws1[|es1|], id, 5);
    var e := NpcAction(id, 0, FEEBLE, 0, true, 0);
    assert id in ws1[|es1|].npcDuels by {
      assert Defies(ws1[|es1|], id, 5);
    }
    EndingCounts(ws1, es1, e, id);
    ws, es := OneMore(ws1, es1, e, id);
    NpcDuelIsBounded(ws, es, id, |es|);
  }
}
