/** The NetCity gate lets in only the qualified. */
module Gate {
  import opened World
  import opened Frames
  import opened Accounts

  /** The lasting part of the gate's demands. */
  ghost predicate Qualified(p: Player) {
    && KEYS_VAULT in p.completed
    && p.completed * StarterCodes() != {}
    && p.registered * p.observed != {}
  }

  /** A player's record only gains keys and missions, and a ban is never lifted. */
  ghost predicate Advances(p: Player, p': Player) {
    p.registered <= p'.registered && p.observed <= p'.observed && p.completed <= p'.completed
    && (p.banned ==> p'.banned)
  }

  ghost predicate AllAdvance(w: World, w': World) {
    forall id | id in w.players :: id in w'.players && Advances(w.players[id], w'.players[id])
  }

  /** No one's mode becomes NetCity. */
  ghost predicate NoneEnters(w: World, w': World) {
    forall id | id in w'.players && w'.players[id].mode.NetCity? ::
      id in w.players && w.players[id].mode.NetCity?
  }

  // One call

  /** What every step but the last section of a NetCity switch does to the players. */
  ghost predicate Safe(w: World, w': World) {
    AllAdvance(w, w') && NoneEnters(w, w')
  }

  lemma UpdateSafe(w: World, w': World, id: Id, p: Player)
    requires id in w.players && w'.players == w.players[id := p]
    requires Advances(w.players[id], p) && (p.mode.NetCity? ==> w.players[id].mode.NetCity?)
    ensures Safe(w, w')
  {
  }

  lemma AccountsAdvance(w: World, e: Event)
    requires AccountEvent(e) && NamesOk(w) && IdsIssued(w) && Enabled(w, e)
    ensures Safe(w, AccountStep(w, e).0)
  {
    var w' := AccountStep(w, e).0;
    if e.Login? {
      hide AccountStep, NamesOk, Safe;
      LoginEffect(w, e);
      LoginSafe(w, e, w');
    } else {
      hide Safe, NextStreak, Grows;
      if w'.players == w.players {
        UnchangedSafe(w, w');
      } else {
        UpdateSafe(w, w', e.player, w'.players[e.player]);
      }
    }
  }

  lemma JoinSafe(w: World, w': World, id: Id, p: Player)
    requires id !in w.players && w'.players == w.players[id := p] && !p.mode.NetCity?
    ensures Safe(w, w')
  {
  }

  lemma LoginSafe(w: World, e: Event, w': World)
    requires e.Login? && LoginSees(w, e, w') && e.newId !in w.players
    ensures Safe(w, w')
  {
    hide Safe;
    var displayName := e.username + "@" + e.remoteIp;
    if e.username in w.byUsername {
      var id := w.byUsername[e.username][0];
      var p := w.players[id];
      UpdateSafe(w, w', id, p.(displayName := displayName, observed := p.observed + e.offered));
    } else {
      JoinSafe(w, w', e.newId, NewPlayer(e.username, displayName).(observed := e.offered));
    }
  }

  lemma UnchangedSafe(w: World, w': World)
    requires w'.players == w.players
    ensures Safe(w, w')
  {
  }

  lemma FortunesSafe(w: World, w': World)
    requires OnlyFortunes(w, w')
    ensures AllAdvance(w, w') && NoneEnters(w, w')
  {
    forall id | id in w'.players
      ensures Advances(w.players[id], w'.players[id]) && w'.players[id].mode == w.players[id].mode
    {
      assert OnlyFortune(w.players[id], w'.players[id]);
    }
  }

  lemma ModesAdvance(w: World, e: Event)
    requires ModeEvent(e)
    ensures AllAdvance(w, ModeStep(w, e).0)
    ensures !e.SwitchInstall? ==> NoneEnters(w, ModeStep(w, e).0)
  {
    hide StarterCodes, Grows;
  }

  /** Whatever is called, records only advance, and only the third section of a NetCity switch
      can put anyone into NetCity. */
  lemma StepAdvances(w: World, e: Event)
    requires NamesOk(w) && IdsIssued(w) && Enabled(w, e)
    ensures AllAdvance(w, Step(w, e).0)
    ensures !e.SwitchInstall? ==> NoneEnters(w, Step(w, e).0)
  {
    hide AccountStep, MarketStep, DuelStep, NpcStep, ModeStep, Enabled, AllAdvance, NoneEnters, NamesOk;
    if AccountEvent(e) {
      AccountsAdvance(w, e);
    } else if ModeEvent(e) {
      ModesAdvance(w, e);
    } else {
      hide Step, OnlyFortunes;
      StepOnlyFortunes(w, e);
      FortunesSafe(w, Step(w, e).0);
    }
  }

  // Reachable states

  /** A switch in flight offers keys its player has shown, and has passed only if they qualify. */
  ghost predicate SwitchOk(w: World, s: Switch) {
    && s.player in w.players
    && s.offered <= w.players[s.player].observed
    && (s.passed ==> Qualified(w.players[s.player]))
  }

  ghost predicate GateHeld(w: World) {
    && (forall id | id in w.players && w.players[id].mode.NetCity? :: Qualified(w.players[id]))
    && (forall c | c in w.switches :: SwitchOk(w, w.switches[c]))
  }

  lemma QualifiedStays(p: Player, p': Player)
    requires Qualified(p) && Advances(p, p')
    ensures Qualified(p')
  {
    hide StarterCodes;
    var code :| code in p.completed * StarterCodes();
    assert code in p'.completed * StarterCodes();
    var key :| key in p.registered * p.observed;
    assert key in p'.registered * p'.observed;
  }

  lemma OpenMeansQualified(w: World, s: Switch)
    requires SwitchOk(w, s) && GateOpen(w, s.player, s.offered)
    ensures Qualified(w.players[s.player])
  {
    hide StarterCodes;
    var p := w.players[s.player];
    var key :| key in p.registered * s.offered;
    assert key in p.registered * p.observed;
  }

  lemma SwitchStays(w: World, w': World, s: Switch)
    requires SwitchOk(w, s) && AllAdvance(w, w')
    ensures SwitchOk(w', s)
  {
    hide Qualified;
    if s.passed {
      QualifiedStays(w.players[s.player], w'.players[s.player]);
    }
  }

  /** What a mode event leaves in flight: old switches, one just read, or one just passed. */
  lemma SwitchesAfter(w: World, e: Event)
    requires ModeEvent(e)
    ensures var w' := ModeStep(w, e).0;
            forall c | c in w'.switches ::
              || (c in w.switches && w'.switches[c] == w.switches[c])
              || (e.SwitchRead? && e.player in w.players
                  && w'.switches[c] == Switch(e.player, w.players[e.player].observed, false))
              || (e.SwitchGate? && c in w.switches && GateOpen(w, w.switches[c].player, w.switches[c].offered)
                  && w'.switches[c] == w.switches[c].(passed := true))
  {
    hide StarterCodes, GateOpen, Grows;
  }

  lemma SwitchesHeld(w: World, e: Event)
    requires NamesOk(w) && IdsIssued(w) && Enabled(w, e) && GateHeld(w)
    ensures forall c | c in Step(w, e).0.switches :: SwitchOk(Step(w, e).0, Step(w, e).0.switches[c])
  {
    hide AccountStep, MarketStep, DuelStep, NpcStep, ModeStep, Enabled, AllAdvance, SwitchOk, GateOpen, Grows,
         SameArena, SameMarket, NamesOk;
    StepAdvances(w, e);
    var w' := Step(w, e).0;
    assert forall c | c in w.switches :: SwitchOk(w, w.switches[c]);
    if ModeEvent(e) {
      SwitchesAfter(w, e);
    }
    forall c | c in w'.switches
      ensures SwitchOk(w', w'.switches[c])
    {
      if c in w.switches && w'.switches[c] == w.switches[c] {
        SwitchStays(w, w', w.switches[c]);
      } else if e.SwitchRead? {
        JustReadHeld(w, w', e.player);
      } else {
        PassedHeld(w, w', w.switches[c]);
      }
    }
  }

  lemma PassedHeld(w: World, w': World, s: Switch)
    requires SwitchOk(w, s) && AllAdvance(w, w') && GateOpen(w, s.player, s.offered)
    ensures SwitchOk(w', s.(passed := true))
  {
    hide Qualified, GateOpen;
    OpenMeansQualified(w, s);
    QualifiedStays(w.players[s.player], w'.players[s.player]);
  }

  lemma JustReadHeld(w: World, w': World, player: Id)
    requires player in w.players && AllAdvance(w, w')
    ensures SwitchOk(w', Switch(player, w.players[player].observed, false))
  {
    hide Qualified;
  }

  /** The third section: whom it lets in, and that no one else's mode changes. */
  lemma InstallEffect(w: World, e: Event)
    requires e.SwitchInstall?
    ensures var (w', r) := ModeStep(w, e);
            if r == Done then
              && e.call in w.switches && w.switches[e.call].passed
              && NotZeroed(w, w.switches[e.call].player)
              && w'.players == w.players[w.switches[e.call].player :=
                                           w.players[w.switches[e.call].player].(mode := NetCity)]
            else w'.players == w.players
  {
  }

  lemma StepHeld(w: World, e: Event)
    requires NamesOk(w) && IdsIssued(w) && Enabled(w, e) && GateHeld(w)
    ensures GateHeld(Step(w, e).0)
  {
    hide AccountStep, MarketStep, DuelStep, NpcStep, ModeStep, Enabled, SwitchOk, Qualified, Grows, Advances,
         SameArena, SameMarket, SameSwitches, NotZeroed, NamesOk;
    SwitchesHeld(w, e);
    StepAdvances(w, e);
    var w' := Step(w, e).0;
    forall id | id in w'.players && w'.players[id].mode.NetCity?
      ensures Qualified(w'.players[id])
    {
      if id in w.players && w.players[id].mode.NetCity? {
        QualifiedStays(w.players[id], w'.players[id]);
      } else {
        InstallEffect(w, e);
        assert SwitchOk(w, w.switches[e.call]);
        EntrantQualified(w, w', w.switches[e.call]);
      }
    }
  }

  lemma EntrantQualified(w: World, w': World, s: Switch)
    requires SwitchOk(w, s) && s.passed && AllAdvance(w, w')
    ensures s.player in w'.players && Qualified(w'.players[s.player])
  {
    hide Qualified;
    QualifiedStays(w.players[s.player], w'.players[s.player]);
  }

  /** In every reachable state, every player whose mode is NetCity has KEYS VAULT and a starter
      mission complete and a registered key that some login presented. */
  lemma {:induction false} NetCityImpliesQualified(ws: seq<World>, es: seq<Event>, n: nat)
    requires IsRun(ws, es) && n <= |es|
    ensures GateHeld(ws[n])
    ensures forall id | id in ws[n].players && ws[n].players[id].mode.NetCity? :: Qualified(ws[n].players[id])
  {
    hide Step, Enabled, Qualified, SwitchOk, NamesOk;
    if n > 0 {
      OneAccountPerName(ws, es, n - 1);
      NetCityImpliesQualified(ws, es, n - 1);
      assert Follows(ws, es, n - 1);
      hide IdsIssued, GateHeld;
      StepHeld(ws[n - 1], es[n - 1]);
      assert GateHeld(ws[n]);
    }
  }

  /** However a run interleaves, anyone entering NetCity does so by the third section of a
      switch that passed the gate earlier, and at that very moment qualifies and is not
      banned. */
  lemma EntryIsSound(ws: seq<World>, es: seq<Event>, n: nat, id: Id)
    requires IsRun(ws, es) && n < |es|
    requires id in ws[n + 1].players && ws[n + 1].players[id].mode.NetCity?
    requires !(id in ws[n].players && ws[n].players[id].mode.NetCity?)
    ensures es[n].SwitchInstall? && es[n].call in ws[n].switches && ws[n].switches[es[n].call].passed
    ensures id == ws[n].switches[es[n].call].player
    ensures id in ws[n].players && Qualified(ws[n].players[id]) && !ws[n].players[id].banned
    ensures Qualified(ws[n + 1].players[id]) && !ws[n + 1].players[id].banned
  {
    hide AccountStep, MarketStep, DuelStep, NpcStep, ModeStep, Enabled, Qualified, AllAdvance, IdsIssued, NamesOk,
         Grows;
    OneAccountPerName(ws, es, n);
    NetCityImpliesQualified(ws, es, n);
    NetCityImpliesQualified(ws, es, n + 1);
    assert Follows(ws, es, n);
    StepAdvances(ws[n], es[n]);
    InstallEffect(ws[n], es[n]);
    assert SwitchOk(ws[n], ws[n].switches[es[n].call]);
  }

  /** The three sections of one switch with nothing in between. */
  function SwitchAlone(w: World, player: Id, newId: Id): (World, Response) {
    DoSwitchInstall(DoSwitchGate(DoSwitchRead(w, player, newId).0, newId).0, newId)
  }

  lemma AloneRefused(w: World, player: Id, newId: Id)
    requires IdsIssued(w) && Fresh(w, newId)
    requires !(NotZeroed(w, player) && Qualified(w.players[player]))
    ensures SwitchAlone(w, player, newId).1 == Refused
    ensures SwitchAlone(w, player, newId).0.switches == w.switches
    ensures SwitchAlone(w, player, newId).0.players == w.players
  {
    hide StarterCodes;
    if NotZeroed(w, player) {
      var read := DoSwitchRead(w, player, newId).0;
      assert !GateOpen(read, player, w.players[player].observed);
      assert read.switches - {newId} == w.switches;
    }
  }

  lemma AloneInstalled(w: World, player: Id, newId: Id)
    requires IdsIssued(w) && Fresh(w, newId)
    requires NotZeroed(w, player) && Qualified(w.players[player])
    ensures SwitchAlone(w, player, newId).1 == Done
    ensures SwitchAlone(w, player, newId).0.switches == w.switches
    ensures SwitchAlone(w, player, newId).0.players == w.players[player := w.players[player].(mode := NetCity)]
  {
    hide StarterCodes;
    var read := DoSwitchRead(w, player, newId).0;
    assert GateOpen(read, player, w.players[player].observed);
    var gate := DoSwitchGate(read, newId).0;
    assert gate.switches - {newId} == w.switches;
  }

  /** Left alone, a switch succeeds exactly for a qualified player who is not banned, and then
      changes that player's mode and nothing else about any player or switch. */
  lemma SwitchAloneIffQualified(w: World, player: Id, newId: Id)
    requires IdsIssued(w) && Fresh(w, newId)
    ensures var (w', r) := SwitchAlone(w, player, newId);
            && (r == Done <==> NotZeroed(w, player) && Qualified(w.players[player]))
            && w'.switches == w.switches
            && w'.players == if r == Done then w.players[player := w.players[player].(mode := NetCity)] else w.players
  {
    hide SwitchAlone, Qualified;
    if NotZeroed(w, player) && Qualified(w.players[player]) {
      AloneInstalled(w, player, newId);
    } else {
      AloneRefused(w, player, newId);
    }
  }
}
