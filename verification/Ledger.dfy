/** The history ledger: the entries under a role tell that role's story completely. */
module Ledger {
  import opened Text
  import opened World

  // What a role's story must look like

  /** The name a role goes by in a generation, as the code picks it: the first name, then the
      pool entry whose index is the generation, and from then on the last one. */
  function NameIn(seed: Npc, generation: nat): string
    requires seed.pool != []
  {
    if generation <= 1 then seed.pool[0] else PoolName(seed.pool, generation)
  }

  /** The holder of a role in a generation. */
  function Holder(seed: Npc, generation: nat): Npc
    requires seed.pool != []
  {
    seed.(name := NameIn(seed, generation), generation := generation)
  }

  ghost predicate DefeatOf(entry: HistoryEntry, seed: Npc, generation: nat)
    requires seed.pool != []
  {
    entry == DefeatEntry(Holder(seed, generation), entry.defeatedBy)
  }

  ghost predicate SuccessionTo(entry: HistoryEntry, seed: Npc, generation: nat)
    requires seed.pool != []
  {
    entry == SuccessionEntry(Holder(seed, generation))
  }

  /** The entries recorded under a role, in order. */
  function RoleEntries(history: seq<HistoryEntry>, role: string): seq<HistoryEntry>
    decreases |history|
  {
    if history == [] then []
    else
      var last := history[|history| - 1];
      RoleEntries(history[..|history| - 1], role) + (if last.npcRole == role then [last] else [])
  }

  /** Defeat of generation 1, succession to 2, defeat of 2, succession to 3, and so on. */
  ghost predicate Alternating(entries: seq<HistoryEntry>, seed: Npc)
    requires seed.pool != []
  {
    forall k | 0 <= k < |entries| ::
      if k % 2 == 0 then DefeatOf(entries[k], seed, k / 2 + 1) else SuccessionTo(entries[k], seed, k / 2 + 2)
  }

  /** How an NPC and the entries under its role relate to its row of the seed table. */
  ghost predicate Chronicled(seed: Npc, n: Npc, entries: seq<HistoryEntry>)
    requires seed.pool != []
  {
    && n == Holder(seed, n.generation).(timesDefeated := n.timesDefeated)
    && n.generation == n.timesDefeated + 1
    && (if seed.hasSuccessors then
          |entries| == 2 * n.timesDefeated && Alternating(entries, seed)
        else
          n.timesDefeated == 0 && forall k | 0 <= k < |entries| :: DefeatOf(entries[k], seed, 1))
  }

  ghost predicate AllChronicled(seeds: map<string, Npc>, npcs: map<string, Npc>, history: seq<HistoryEntry>)
    requires forall c | c in seeds :: seeds[c].pool != []
  {
    && npcs.Keys == seeds.Keys
    && forall c | c in seeds :: Chronicled(seeds[c], npcs[c], RoleEntries(history, seeds[c].role))
  }

  // One victory

  lemma DefeatChronicled(seed: Npc, n: Npc, entries: seq<HistoryEntry>, victor: string)
    requires seed.pool != [] && Chronicled(seed, n, entries)
    ensures seed.hasSuccessors ==>
              Chronicled(seed, Successor(n),
                         entries + ([DefeatEntry(n, victor)] + [SuccessionEntry(Successor(n))]))
    ensures !seed.hasSuccessors ==> Chronicled(seed, n, entries + ([DefeatEntry(n, victor)] + []))
    ensures n.role == seed.role && n.hasSuccessors == seed.hasSuccessors && n.pool == seed.pool
  {
    var defeat := DefeatEntry(n, victor);
    assert DefeatOf(defeat, seed, n.generation);
    if seed.hasSuccessors {
      var next := Successor(n);
      assert SuccessionTo(SuccessionEntry(next), seed, n.generation + 1);
      var entries' := entries + ([defeat] + [SuccessionEntry(next)]);
      forall k | 0 <= k < |entries'|
        ensures if k % 2 == 0 then DefeatOf(entries'[k], seed, k / 2 + 1)
                else SuccessionTo(entries'[k], seed, k / 2 + 2)
      {
        if k < |entries| {
          assert entries'[k] == entries[k];
        }
      }
    }
  }

  /** The entries a victory leaves under a role: its own gain the news, the others nothing. */
  lemma VictoryEntries(history: seq<HistoryEntry>, n: Npc, victor: string, role: string)
    requires n.pool != []
    ensures var news := [DefeatEntry(n, victor)] + (if n.hasSuccessors then [SuccessionEntry(Successor(n))] else []);
            RoleEntries(history + news, role) == RoleEntries(history, role) + (if n.role == role then news else [])
  {
    var entry, last := DefeatEntry(n, victor), SuccessionEntry(Successor(n));
    assert history + ([entry] + [last]) == history + [entry] + [last];
    assert history + ([entry] + []) == history + [entry];
    assert RoleEntries(history, role) + [entry] + [last] == RoleEntries(history, role) + ([entry] + [last]);
  }

  lemma OneRole(seed: Npc, n: Npc, victor: string, history: seq<HistoryEntry>, other: Npc, m: Npc)
    requires seed.pool != [] && Chronicled(seed, n, RoleEntries(history, seed.role))
    requires other.pool != [] && Chronicled(other, m, RoleEntries(history, other.role))
    requires other.role == seed.role ==> other == seed && m == n
    ensures var news := [DefeatEntry(n, victor)] + (if n.hasSuccessors then [SuccessionEntry(Successor(n))] else []);
            Chronicled(other, if other.role == seed.role && n.hasSuccessors then Successor(n) else m,
                       RoleEntries(history + news, other.role))
  {
    DefeatChronicled(seed, n, RoleEntries(history, seed.role), victor);
    hide Chronicled, RoleEntries, DefeatEntry, SuccessionEntry, Successor;
    VictoryEntries(history, n, victor, other.role);
  }

  /** A victory writes only under the role of the NPC it was won against. */
  lemma VictoryChronicled(seeds: map<string, Npc>, w: World, player: Id, callsign: string)
    requires GoodSeeds(seeds) && AllChronicled(seeds, w.npcs, w.history) && callsign in w.npcs
    ensures var w' := NpcDefeated(w, player, callsign);
            AllChronicled(seeds, w'.npcs, w'.history)
  {
    hide Chronicled, RoleEntries, NpcDefeated, DefeatEntry, SuccessionEntry, Successor;
    var w' := NpcDefeated(w, player, callsign);
    var n := w.npcs[callsign];
    var victor := if player in w.players then w.players[player].displayName else "";
    assert Chronicled(seeds[callsign], n, RoleEntries(w.history, seeds[callsign].role));
    ChronicledPool(seeds[callsign], n, RoleEntries(w.history, seeds[callsign].role));
    VictoryHistory(w, player, callsign, victor);
    forall c | c in seeds
      ensures Chronicled(seeds[c], w'.npcs[c], RoleEntries(w'.history, seeds[c].role))
    {
      assert c != callsign ==> seeds[c].role != seeds[callsign].role;
      OneRole(seeds[callsign], n, victor, w.history, seeds[c], w.npcs[c]);
    }
  }

  lemma ChronicledPool(seed: Npc, n: Npc, entries: seq<HistoryEntry>)
    requires seed.pool != [] && Chronicled(seed, n, entries)
    ensures n.pool == seed.pool
  {
  }

  lemma VictoryHistory(w: World, player: Id, callsign: string, victor: string)
    requires callsign in w.npcs && w.npcs[callsign].pool != []
    requires victor == (if player in w.players then w.players[player].displayName else "")
    ensures var n := w.npcs[callsign];
            var w' := NpcDefeated(w, player, callsign);
            && w'.history == w.history + ([DefeatEntry(n, victor)]
                             + (if n.hasSuccessors then [SuccessionEntry(Successor(n))] else []))
            && w'.npcs == if n.hasSuccessors then w.npcs[callsign := Successor(n)] else w.npcs
  {
    hide DefeatEntry, SuccessionEntry, Successor;
  }

  // Every step

  /** An NPC step leaves the ledger alone, or it is a victory. */
  lemma NpcStepLedger(w: World, e: Event)
    requires NpcEvent(e)
    ensures var w' := NpcStep(w, e).0;
            || (w'.npcs == w.npcs && w'.history == w.history)
            || (&& e.NpcAction? && e.npcDuel in w.npcDuels && w.npcDuels[e.npcDuel].callsign in w.npcs
                && w' == NpcDefeated(w.(npcDuels := w.npcDuels - {e.npcDuel}), e.player,
                                     w.npcDuels[e.npcDuel].callsign))
  {
    hide NpcDefeated, PlayerTurn, NpcTurn, Defeated, Grows, SameMarket, SameSwitches;
  }

  lemma NpcStepChronicled(seeds: map<string, Npc>, w: World, e: Event)
    requires GoodSeeds(seeds) && AllChronicled(seeds, w.npcs, w.history) && NpcEvent(e)
    ensures AllChronicled(seeds, NpcStep(w, e).0.npcs, NpcStep(w, e).0.history)
  {
    assert forall c | c in seeds :: GoodSeed(seeds[c]);
    hide NpcStep, NpcDefeated, AllChronicled, GoodSeeds;
    NpcStepLedger(w, e);
    if e.NpcAction? && e.npcDuel in w.npcDuels && w.npcDuels[e.npcDuel].callsign in w.npcs {
      VictoryChronicled(seeds, w.(npcDuels := w.npcDuels - {e.npcDuel}), e.player, w.npcDuels[e.npcDuel].callsign);
    }
  }

  lemma VictoryAppends(w: World, player: Id, callsign: string)
    requires callsign in w.npcs
    ensures w.history <= NpcDefeated(w, player, callsign).history
  {
  }

  lemma NpcStepAppends(w: World, e: Event)
    requires NpcEvent(e)
    ensures w.history <= NpcStep(w, e).0.history
  {
    hide NpcStep, NpcDefeated;
    NpcStepLedger(w, e);
    if e.NpcAction? && e.npcDuel in w.npcDuels && w.npcDuels[e.npcDuel].callsign in w.npcs {
      VictoryAppends(w.(npcDuels := w.npcDuels - {e.npcDuel}), e.player, w.npcDuels[e.npcDuel].callsign);
    }
  }

  lemma StepChronicled(seeds: map<string, Npc>, w: World, e: Event)
    requires GoodSeeds(seeds) && AllChronicled(seeds, w.npcs, w.history)
    ensures AllChronicled(seeds, Step(w, e).0.npcs, Step(w, e).0.history)
  {
    hide AccountStep, MarketStep, DuelStep, NpcStep, ModeStep, Chronicled, GoodSeeds;
    if NpcEvent(e) {
      NpcStepChronicled(seeds, w, e);
    }
  }

  lemma {:induction false} RunChronicled(ws: seq<World>, es: seq<Event>, n: nat)
    requires IsRun(ws, es) && n <= |es|
    ensures forall c | c in ws[0].npcs :: ws[0].npcs[c].pool != []
    ensures AllChronicled(ws[0].npcs, ws[n].npcs, ws[n].history)
  {
    assert forall c | c in ws[0].npcs :: GoodSeed(ws[0].npcs[c]);
    if n > 0 {
      hide Step;
      RunChronicled(ws, es, n - 1);
      assert Follows(ws, es, n - 1);
      StepChronicled(ws[0].npcs, ws[n - 1], es[n - 1]);
    }
  }

  /** A won duel records the defeat, with the player's display name, and then the succession, if
      the NPC has successors: the next generation, under the name the pool has for it. */
  lemma VictoryExact(w: World, e: Event)
    requires e.NpcAction? && Step(w, e).1 == NpcDuelOver(true)
    ensures e.npcDuel in w.npcDuels && w.npcDuels[e.npcDuel].callsign in w.npcs
    ensures var w' := Step(w, e).0;
            var callsign := w.npcDuels[e.npcDuel].callsign;
            var n := w.npcs[callsign];
            var victor := if e.player in w.players then w.players[e.player].displayName else "";
            var defeat := HistoryEntry(n.name + " defeated by " + victor, n.name, n.role, n.generation, victor);
            if n.hasSuccessors && n.pool != [] then
              var name, g := n.pool[Min(n.generation + 1, |n.pool| - 1)], n.generation + 1;
              var news := name + " assumes role of " + n.role + " (Gen " + Decimal(g) + ")";
              && w'.npcs == w.npcs[callsign := n.(name := name, generation := g, timesDefeated := n.timesDefeated + 1)]
              && w'.history == w.history + [defeat] + [HistoryEntry(news, name, n.role, g, "")]
            else w'.npcs == w.npcs && w'.history == w.history + [defeat]
  {
    hide AccountStep, MarketStep, DuelStep, ModeStep, PlayerTurn, NpcTurn, Defeated, Grows, SameMarket, SameSwitches,
         Decimal;
  }

  // What the ledger tells

  /** The name and generation that the entries, read in order, lead to. */
  function Replay(entries: seq<HistoryEntry>, name: string, generation: nat): (string, nat)
    decreases |entries|
  {
    if entries == [] then (name, generation)
    else Replay(entries[1..], entries[0].npcName, entries[0].generation)
  }

  lemma {:induction false} ReplayIsLast(entries: seq<HistoryEntry>, name: string, generation: nat)
    requires entries != []
    ensures Replay(entries, name, generation)
         == (entries[|entries| - 1].npcName, entries[|entries| - 1].generation)
    decreases |entries|
  {
    if |entries| > 1 {
      ReplayIsLast(entries[1..], entries[0].npcName, entries[0].generation);
    }
  }

  lemma ReplayNothing(name: string, generation: nat)
    ensures Replay([], name, generation) == (name, generation)
  {
  }

  /** Replaying the ledger under a role, from the seed table, rebuilds who holds the role now. */
  lemma ReplayRebuilds(ws: seq<World>, es: seq<Event>, n: nat, callsign: string)
    requires IsRun(ws, es) && n <= |es| && callsign in ws[0].npcs
    ensures callsign in ws[n].npcs
    ensures var seed, now := ws[0].npcs[callsign], ws[n].npcs[callsign];
            Replay(RoleEntries(ws[n].history, seed.role), seed.name, seed.generation) == (now.name, now.generation)
  {
    hide Step, RoleEntries, Replay;
    RunChronicled(ws, es, n);
    var seed := ws[0].npcs[callsign];
    assert GoodSeed(seed);
    var entries := RoleEntries(ws[n].history, seed.role);
    ReplayNothing(seed.name, seed.generation);
    if entries != [] {
      ReplayIsLast(entries, seed.name, seed.generation);
      var k := |entries| - 1;
      if seed.hasSuccessors {
        assert SuccessionTo(entries[k], seed, k / 2 + 2);
      } else {
        assert DefeatOf(entries[k], seed, 1);
      }
    }
  }

  ghost predicate Extends(before: World, after: World) {
    before.history <= after.history
  }

  lemma StepAppends(w: World, e: Event)
    ensures Extends(w, Step(w, e).0)
  {
    hide AccountStep, MarketStep, DuelStep, NpcStep, ModeStep;
    if NpcEvent(e) {
      NpcStepAppends(w, e);
    }
  }

  /** The ledger is append-only. */
  lemma {:induction false} HistoryAppendOnly(ws: seq<World>, es: seq<Event>, i: nat, j: nat)
    requires IsRun(ws, es) && i <= j <= |es|
    ensures Extends(ws[i], ws[j])
    decreases j - i
  {
    if i < j {
      hide Step, GoodSeeds, Enabled, Extends;
      HistoryAppendOnly(ws, es, i, j - 1);
      assert Follows(ws, es, j - 1);
      hide IsRun;
      StepAppends(ws[j - 1], es[j - 1]);
    }
  }

  ghost predicate DistinctNames(pool: seq<string>) {
    forall i, j | 0 <= i < j < |pool| :: pool[i] != pool[j]
  }

  /** The documented order takes the pool's names one by one. The holder of a role carries the
      name so documented if and only if it is the first, or its generation has reached the
      length of the pool: from the second holder on, everyone goes by the name after, except
      that the last name stays. Where there are three names or more, nobody carries the
      second. */
  lemma SecondNameIsSkipped(ws: seq<World>, es: seq<Event>, n: nat, callsign: string)
    requires IsRun(ws, es) && n <= |es| && callsign in ws[0].npcs && DistinctNames(ws[0].npcs[callsign].pool)
    ensures callsign in ws[n].npcs && ws[0].npcs[callsign].pool != []
    ensures var pool, now := ws[0].npcs[callsign].pool, ws[n].npcs[callsign];
            && now.generation == now.timesDefeated + 1
            && (now.name == pool[Min(now.generation - 1, |pool| - 1)]
                <==> now.generation == 1 || now.generation >= |pool|)
            && (1 < now.generation < |pool| ==> now.name == pool[now.generation])
            && (|pool| >= 3 ==> now.name != pool[1])
  {
    hide Step;
    RunChronicled(ws, es, n);
    assert GoodSeed(ws[0].npcs[callsign]);
  }

  /** An NPC without successors never changes: name, generation and strength stay the seed's. */
  lemma BossesNeverChange(ws: seq<World>, es: seq<Event>, n: nat, callsign: string)
    requires IsRun(ws, es) && n <= |es| && callsign in ws[0].npcs && !ws[0].npcs[callsign].hasSuccessors
    ensures callsign in ws[n].npcs && ws[n].npcs[callsign] == ws[0].npcs[callsign]
    ensures ws[n].npcs[callsign].ScaledHp() == ws[0].npcs[callsign].baseHp
  {
    hide Step;
    RunChronicled(ws, es, n);
    assert GoodSeed(ws[0].npcs[callsign]);
  }

  /** The defeats recorded under a role. */
  function DefeatsOf(history: seq<HistoryEntry>, role: string): nat {
    (|RoleEntries(history, role)| + 1) / 2
  }

  /** Whoever holds a role is as strong as the ledger says: every recorded defeat adds five to
      the health, and every second one adds one to the damage, up to the caps. */
  lemma StrengthFollowsLedger(ws: seq<World>, es: seq<Event>, n: nat, callsign: string)
    requires IsRun(ws, es) && n <= |es| && callsign in ws[0].npcs && ws[0].npcs[callsign].hasSuccessors
    ensures callsign in ws[n].npcs
    ensures var seed, now := ws[0].npcs[callsign], ws[n].npcs[callsign];
            var defeats := DefeatsOf(ws[n].history, seed.role);
            && now.ScaledHp() == Min(seed.baseHp + 5 * defeats, 300)
            && now.ScaledLo() == Min(seed.damageLo + defeats / 2, 50)
            && now.ScaledHi() == Min(seed.damageHi + defeats / 2, 50)
            && now.reward == seed.reward && now.role == seed.role
  {
    hide Step, RoleEntries;
    RunChronicled(ws, es, n);
  }
}
