/** Accounts: one for each name, and the daily and style rewards they can claim. */
module Accounts {
  import opened Base
  import opened World
  import opened Frames

  // What leaves accounts and rewards alone

  ghost predicate Keeps(p: Player, p': Player) {
    && p'.username == p.username
    && p'.streak == p.streak && p'.streakDay == p.streakDay
    && p'.styleClaims == p.styleClaims && p'.styleDay == p.styleDay
  }

  ghost predicate AllKeep(w: World, w': World) {
    && w'.byUsername == w.byUsername && w'.dailyClaimed == w.dailyClaimed
    && w'.players.Keys == w.players.Keys
    && forall id | id in w.players :: Keeps(w.players[id], w'.players[id])
  }

  lemma SameKeeps(w: World, w': World)
    requires w'.byUsername == w.byUsername && w'.dailyClaimed == w.dailyClaimed && w'.players == w.players
    ensures AllKeep(w, w')
  {
  }

  lemma UpdateKeeps(w: World, w': World, id: Id, p: Player)
    requires w'.byUsername == w.byUsername && w'.dailyClaimed == w.dailyClaimed
    requires id in w.players && w'.players == w.players[id := p] && Keeps(w.players[id], p)
    ensures AllKeep(w, w')
  {
  }

  lemma KeepThenKeep(w0: World, w1: World, w2: World)
    requires AllKeep(w0, w1) && AllKeep(w1, w2)
    ensures AllKeep(w0, w2)
  {
    forall id | id in w0.players
      ensures Keeps(w0.players[id], w2.players[id])
    {
      assert Keeps(w0.players[id], w1.players[id]);
    }
  }

  lemma FortunesKeep(w: World, w': World)
    requires OnlyFortunes(w, w')
    ensures AllKeep(w, w')
  {
    forall id | id in w.players
      ensures Keeps(w.players[id], w'.players[id])
    {
      assert OnlyFortune(w.players[id], w'.players[id]);
    }
  }

  lemma SetModeKeeps(w: World, player: Id, mode: Mode)
    ensures AllKeep(w, SetMode(w, player, mode).0)
  {
    hide AllKeep;
    if NotZeroed(w, player) {
      UpdateKeeps(w, SetMode(w, player, mode).0, player, w.players[player].(mode := mode));
    } else {
      SameKeeps(w, w);
    }
  }

  lemma ModesKeep(w: World, e: Event)
    requires ModeEvent(e)
    ensures AllKeep(w, ModeStep(w, e).0)
  {
    hide AllKeep, SetMode, StarterCodes, GateOpen, Grows, SameArena, SameMarket, SameSwitches;
    SameKeeps(w, w);
    match e
    case SwitchRead(_, _) =>
      SameKeeps(w, ModeStep(w, e).0);
    case SwitchGate(_) =>
      SameKeeps(w, ModeStep(w, e).0);
    case SwitchInstall(call) =>
      if call in w.switches {
        var closed := w.(switches := w.switches - {call});
        SameKeeps(w, closed);
        SetModeKeeps(closed, w.switches[call].player, NetCity);
        KeepThenKeep(w, closed, SetMode(closed, w.switches[call].player, NetCity).0);
      }
    case PlainSwitch(player, mode) =>
      SetModeKeeps(w, player, mode);
  }

  /** The account events that touch neither names nor rewards. */
  predicate PlainAccountEvent(e: Event) {
    e.RegisterKey? || e.CompleteMission? || e.Ban? || e.SetTier?
  }

  lemma PlainAccountsKeep(w: World, e: Event)
    requires PlainAccountEvent(e)
    ensures AllKeep(w, AccountStep(w, e).0)
  {
    hide AllKeep, Grows, SameArena, SameMarket, SameSwitches;
    var w' := AccountStep(w, e).0;
    if w'.players == w.players {
      SameKeeps(w, w');
    } else {
      UpdateKeeps(w, w', e.player, w'.players[e.player]);
    }
  }

  lemma OthersKeep(w: World, e: Event)
    requires !e.Login? && !e.ClaimDaily? && !e.StyleBonus?
    ensures AllKeep(w, Step(w, e).0)
  {
    hide AccountStep, MarketStep, DuelStep, NpcStep, ModeStep, AllKeep, Grows, SameArena, SameMarket, SameSwitches;
    if AccountEvent(e) {
      PlainAccountsKeep(w, e);
    } else if ModeEvent(e) {
      ModesKeep(w, e);
    } else {
      hide Step, OnlyFortunes;
      StepOnlyFortunes(w, e);
      FortunesKeep(w, Step(w, e).0);
    }
  }

  // Names

  /** Every name's list holds the one account of that name, and every account is listed. */
  ghost predicate NamesOk(w: World) {
    && (forall u | u in w.byUsername ::
          |w.byUsername[u]| == 1 && w.byUsername[u][0] in w.players && w.players[w.byUsername[u][0]].username == u)
    && (forall id | id in w.players ::
          w.players[id].username in w.byUsername && w.byUsername[w.players[id].username] == [id])
  }

  lemma KeepKeepsNames(w: World, w': World)
    requires NamesOk(w) && AllKeep(w, w')
    ensures NamesOk(w')
  {
    forall id | id in w'.players
      ensures w'.players[id].username in w'.byUsername && w'.byUsername[w'.players[id].username] == [id]
    {
      assert Keeps(w.players[id], w'.players[id]);
    }
    forall u | u in w'.byUsername
      ensures |w'.byUsername[u]| == 1 && w'.byUsername[u][0] in w'.players
              && w'.players[w'.byUsername[u][0]].username == u
    {
      assert Keeps(w.players[w.byUsername[u][0]], w'.players[w.byUsername[u][0]]);
    }
  }

  /** Where names have one account each, the keys offered do not decide whose account a login
      gets: a known name always gets its own, and only an unknown name a new one. */
  lemma LoginEffect(w: World, e: Event)
    requires NamesOk(w) && e.Login?
    ensures LoginSees(w, e, AccountStep(w, e).0)
  {
    hide NamesOk, Grows, SameArena, SameMarket, SameSwitches;
    if e.username in w.byUsername {
      var ids := w.byUsername[e.username];
      ListedAccount(w, e.username);
      assert FirstWithKey(w, ids[1..], e.offered).None?;
      assert AccountStep(w, e) == SeePlayer(w, ids[0], e.username + "@" + e.remoteIp, e.offered);
    } else {
      var p := NewPlayer(e.username, e.username + "@" + e.remoteIp);
      assert p.observed + e.offered == e.offered;
      assert w.players[e.newId := p][e.newId := p.(observed := e.offered)]
          == w.players[e.newId := p.(observed := e.offered)];
    }
  }

  /** A login as one account's `displayName` and observed keys, whether old or new. */
  ghost predicate LoginSees(w: World, e: Event, w': World)
    requires e.Login?
  {
    var displayName := e.username + "@" + e.remoteIp;
    if e.username in w.byUsername then
      && |w.byUsername[e.username]| == 1 && w.byUsername[e.username][0] in w.players
      && var id := w.byUsername[e.username][0];
         var p := w.players[id];
         w' == w.(players := w.players[id := p.(displayName := displayName, observed := p.observed + e.offered)])
    else
      w' == w.(players := w.players[e.newId := NewPlayer(e.username, displayName).(observed := e.offered)],
               byUsername := w.byUsername[e.username := [e.newId]],
               issued := w.issued + {e.newId})
  }

  lemma ListedAccount(w: World, username: string)
    requires NamesOk(w) && username in w.byUsername
    ensures |w.byUsername[username]| == 1 && w.byUsername[username][0] in w.players
    ensures w.players[w.byUsername[username][0]].username == username
  {
  }

  lemma LoginKeepsNames(w: World, e: Event)
    requires NamesOk(w) && IdsIssued(w) && Enabled(w, e) && e.Login?
    ensures NamesOk(AccountStep(w, e).0)
  {
    hide AccountStep, NamesOk;
    LoginEffect(w, e);
    var w' := AccountStep(w, e).0;
    if e.username in w.byUsername {
      var id := w.byUsername[e.username][0];
      UpdateKeeps(w, w', id, w'.players[id]);
      KeepKeepsNames(w, w');
    } else {
      JoinKeepsNames(w, w', e.newId, e.username);
    }
  }

  lemma JoinKeepsNames(w: World, w': World, id: Id, username: string)
    requires NamesOk(w) && id !in w.players && username !in w.byUsername
    requires id in w'.players && w'.players == w.players[id := w'.players[id]] && w'.players[id].username == username
    requires w'.byUsername == w.byUsername[username := [id]]
    ensures NamesOk(w')
  {
  }

  lemma ClaimEffect(w: World, e: Event)
    requires e.ClaimDaily? || e.StyleBonus?
    ensures var w' := AccountStep(w, e).0;
            && w'.byUsername == w.byUsername && w'.players.Keys == w.players.Keys
            && (forall id | id in w.players && id != e.player :: w'.players[id] == w.players[id])
            && (e.player in w.players ==> w'.players[e.player].username == w.players[e.player].username)
            && (e.StyleBonus? ==> w'.dailyClaimed == w.dailyClaimed)
            && (e.StyleBonus? && e.player in w.players ==>
                  w'.players[e.player].streak == w.players[e.player].streak
                  && w'.players[e.player].streakDay == w.players[e.player].streakDay)
            && (e.ClaimDaily? && e.player in w.players ==>
                  w'.players[e.player].styleClaims == w.players[e.player].styleClaims
                  && w'.players[e.player].styleDay == w.players[e.player].styleDay)
  {
    hide Grows, NextStreak;
  }

  lemma StepKeepsNames(w: World, e: Event)
    requires NamesOk(w) && IdsIssued(w) && Enabled(w, e)
    ensures NamesOk(Step(w, e).0)
  {
    hide AccountStep, MarketStep, DuelStep, NpcStep, ModeStep, Grows, SameArena, SameMarket, SameSwitches;
    if e.Login? {
      hide NamesOk;
      LoginKeepsNames(w, e);
    } else if e.ClaimDaily? || e.StyleBonus? {
      ClaimEffect(w, e);
    } else {
      hide NamesOk, AllKeep;
      OthersKeep(w, e);
      KeepKeepsNames(w, Step(w, e).0);
    }
  }

  /** In every reachable state there is exactly one account for each name ever logged in. */
  lemma {:induction false} OneAccountPerName(ws: seq<World>, es: seq<Event>, n: nat)
    requires IsRun(ws, es) && n <= |es|
    ensures IdsIssued(ws[n]) && NamesOk(ws[n])
    ensures forall id, other | id in ws[n].players && other in ws[n].players
              && ws[n].players[id].username == ws[n].players[other].username :: id == other
  {
    hide Step, Enabled;
    if n > 0 {
      OneAccountPerName(ws, es, n - 1);
      assert Follows(ws, es, n - 1);
      StepKeepsNames(ws[n - 1], es[n - 1]);
    }
    OneIdPerName(ws[n]);
  }

  lemma OneIdPerName(w: World)
    requires NamesOk(w)
    ensures forall id, other | id in w.players && other in w.players
              && w.players[id].username == w.players[other].username :: id == other
  {
    forall id, other | id in w.players && other in w.players && w.players[id].username == w.players[other].username
      ensures id == other
    {
      assert [id][0] == [other][0];
    }
  }

  // The daily reward

  predicate DailyPaid(w: World, e: Event, id: Id) {
    e.ClaimDaily? && e.player == id && Step(w, e).1.Reward? && Step(w, e).1.amount != 0
  }

  /** The days a player has been paid for, in the order of the claims. */
  ghost function PaidDays(ws: seq<World>, es: seq<Event>, id: Id, n: nat): seq<int>
    requires |ws| == |es| + 1 && n <= |es|
  {
    if n == 0 then []
    else PaidDays(ws, es, id, n - 1) + (if DailyPaid(ws[n - 1], es[n - 1], id) then [es[n - 1].day] else [])
  }

  /** How many days in a row the last claim completes. */
  function RunLength(days: seq<int>): nat
    decreases |days|
  {
    if |days| <= 1 then |days|
    else if days[|days| - 2] + 1 == days[|days| - 1] then RunLength(days[..|days| - 1]) + 1
    else 1
  }

  ghost predicate DailyOk(w: World, id: Id, days: seq<int>) {
    && (forall d :: (id, d) in w.dailyClaimed <==> d in days)
    && (id !in w.players ==> days == [])
    && (id in w.players ==>
          var p := w.players[id];
          if days == [] then p.streakDay.None?
          else p.streakDay == Some(days[|days| - 1]) && p.streak == Min(7, RunLength(days)))
  }

  /** The streak a claim would reach. */
  function StreakWith(days: seq<int>, day: int): nat {
    Min(7, RunLength(days + [day]))
  }

  lemma StreakExtends(p: Player, days: seq<int>, day: int)
    requires day !in days
    requires if days == [] then p.streakDay.None?
             else p.streakDay == Some(days[|days| - 1]) && p.streak == Min(7, RunLength(days))
    ensures NextStreak(p, day) == StreakWith(days, day)
  {
    var after := days + [day];
    assert after[..|after| - 1] == days;
  }

  lemma PaidClaim(w: World, id: Id, day: int, days: seq<int>)
    requires DailyOk(w, id, days) && day !in days && id in w.players
    ensures DoClaimDaily(w, id, day).1 == Reward(50 + 15 * StreakWith(days, day))
    ensures DailyOk(DoClaimDaily(w, id, day).0, id, days + [day])
  {
    hide NextStreak, RunLength, Grows, SameArena, SameMarket, SameSwitches;
    assert (id, day) !in w.dailyClaimed;
    StreakExtends(w.players[id], days, day);
  }

  lemma ClaimStep(w: World, e: Event, days: seq<int>)
    requires e.ClaimDaily? && DailyOk(w, e.player, days)
    ensures var (w', r) := AccountStep(w, e);
            && r == (if e.day in days then Reward(0)
                     else if e.player !in w.players then Refused
                     else Reward(50 + 15 * StreakWith(days, e.day)))
            && DailyOk(w', e.player, if r.Reward? && r.amount != 0 then days + [e.day] else days)
  {
    hide StreakWith, NextStreak, RunLength, Grows, SameArena, SameMarket, SameSwitches;
    assert (e.player, e.day) in w.dailyClaimed <==> e.day in days;
    if e.day !in days && e.player in w.players {
      hide DoClaimDaily, DailyOk;
      PaidClaim(w, e.player, e.day, days);
    }
  }

  lemma OtherClaimKeepsDaily(w: World, e: Event, id: Id, days: seq<int>)
    requires e.ClaimDaily? && e.player != id && DailyOk(w, id, days)
    ensures DailyOk(AccountStep(w, e).0, id, days)
  {
    hide NextStreak, RunLength, Grows;
  }

  lemma KeepKeepsDaily(w: World, w': World, id: Id, days: seq<int>)
    requires AllKeep(w, w') && DailyOk(w, id, days)
    ensures DailyOk(w', id, days)
  {
    hide RunLength;
    if id in w.players {
      assert Keeps(w.players[id], w'.players[id]);
    }
  }

  lemma LoginKeepsDaily(w: World, e: Event, id: Id, days: seq<int>)
    requires e.Login? && NamesOk(w) && IdsIssued(w) && Enabled(w, e) && DailyOk(w, id, days)
    ensures DailyOk(AccountStep(w, e).0, id, days)
  {
    hide AccountStep, NamesOk, RunLength;
    LoginEffect(w, e);
    assert e.newId !in w.players;
  }

  lemma StepKeepsDaily(w: World, e: Event, id: Id, days: seq<int>)
    requires NamesOk(w) && IdsIssued(w) && Enabled(w, e) && DailyOk(w, id, days)
    ensures DailyOk(Step(w, e).0, id, if DailyPaid(w, e, id) then days + [e.day] else days)
  {
    hide AccountStep, MarketStep, DuelStep, NpcStep, ModeStep, Grows, SameArena, SameMarket, SameSwitches;
    hide NamesOk, RunLength, AllKeep;
    if e.Login? {
      LoginKeepsDaily(w, e, id, days);
    } else if e.ClaimDaily? {
      hide DailyOk;
      if e.player == id {
        ClaimStep(w, e, days);
      } else {
        OtherClaimKeepsDaily(w, e, id, days);
      }
    } else if e.StyleBonus? {
      ClaimEffect(w, e);
    } else {
      hide DailyOk;
      OthersKeep(w, e);
      KeepKeepsDaily(w, Step(w, e).0, id, days);
    }
  }

  lemma {:induction false} RunDaily(ws: seq<World>, es: seq<Event>, id: Id, n: nat)
    requires IsRun(ws, es) && n <= |es|
    ensures DailyOk(ws[n], id, PaidDays(ws, es, id, n))
  {
    hide Step, Enabled, DailyPaid;
    if n > 0 {
      hide DailyOk, NamesOk, IdsIssued;
      RunDaily(ws, es, id, n - 1);
      OneAccountPerName(ws, es, n - 1);
      assert Follows(ws, es, n - 1);
      var days := PaidDays(ws, es, id, n - 1);
      assert days + [] == days;
      StepKeepsDaily(ws[n - 1], es[n - 1], id, days);
    }
  }

  /** At any point of any run a claim pays if and only if the player exists and has not been paid
      for that day, and pays 50 and 15 more for each day of the unbroken run it completes, up
      to seven. */
  lemma DailyRewardExact(ws: seq<World>, es: seq<Event>, n: nat)
    requires IsRun(ws, es) && n < |es| && es[n].ClaimDaily?
    ensures var days := PaidDays(ws, es, es[n].player, n);
            Step(ws[n], es[n]).1 ==
              if es[n].day in days then Reward(0)
              else if es[n].player !in ws[n].players then Refused
              else Reward(50 + 15 * Min(7, RunLength(days + [es[n].day])))
  {
    hide AccountStep, DailyOk, RunLength;
    RunDaily(ws, es, es[n].player, n);
    ClaimStep(ws[n], es[n], PaidDays(ws, es, es[n].player, n));
  }

  // Style rewards

  predicate StylePaid(w: World, e: Event, id: Id, day: int) {
    e.StyleBonus? && e.player == id && e.day == day && Step(w, e).1.Reward? && Step(w, e).1.amount > 0
  }

  ghost function StyleCount(ws: seq<World>, es: seq<Event>, id: Id, day: int, n: nat): nat
    requires |ws| == |es| + 1 && n <= |es|
  {
    if n == 0 then 0
    else StyleCount(ws, es, id, day, n - 1) + (if StylePaid(ws[n - 1], es[n - 1], id, day) then 1 else 0)
  }

  predicate AsksStyle(e: Event, id: Id) {
    e.StyleBonus? && e.player == id
  }

  /** The day the player last asked for. */
  function LastAsked(es: seq<Event>, id: Id, n: nat): Option<int>
    requires n <= |es|
  {
    if n == 0 then None
    else if AsksStyle(es[n - 1], id) then Some(es[n - 1].day)
    else LastAsked(es, id, n - 1)
  }

  /** How often the player's requests turn to a day, from another one or from none. */
  function Visits(es: seq<Event>, id: Id, day: int, n: nat): nat
    requires n <= |es|
  {
    if n == 0 then 0
    else
      Visits(es, id, day, n - 1)
      + (if AsksStyle(es[n - 1], id) && es[n - 1].day == day && LastAsked(es, id, n - 1) != Some(day) then 1 else 0)
  }

  lemma {:induction false} LastIsVisited(es: seq<Event>, id: Id, day: int, n: nat)
    requires n <= |es| && LastAsked(es, id, n) == Some(day)
    ensures Visits(es, id, day, n) >= 1
  {
    if !(AsksStyle(es[n - 1], id) && LastAsked(es, id, n - 1) != Some(day)) {
      LastIsVisited(es, id, day, n - 1);
    }
  }

  /** What a player's record says about the rewards paid for a day. */
  ghost predicate StyleOk(w: World, id: Id, day: int, count: nat, visits: nat, last: Option<int>) {
    if id !in w.players || w.players[id].styleDay.None? then count == 0
    else
      var p := w.players[id];
      && p.styleDay == last
      && p.styleClaims <= 5
      && count <= if p.styleDay == Some(day) then 5 * (visits - 1) + p.styleClaims else 5 * visits
  }

  lemma StyleStep(w: World, e: Event, day: int, count: nat, visits: nat, last: Option<int>)
    requires e.StyleBonus? && StyleOk(w, e.player, day, count, visits, last)
    requires last == Some(day) ==> visits >= 1
    ensures var (w', r) := AccountStep(w, e);
            StyleOk(w', e.player, day,
                    count + (if e.day == day && r.Reward? && r.amount > 0 then 1 else 0),
                    visits + (if e.day == day && last != Some(day) then 1 else 0), Some(e.day))
  {
    hide Grows, SameArena, SameMarket, SameSwitches;
  }

  /** Events that are not this player's own requests leave the player's count alone. */
  lemma OthersKeepStyle(w: World, e: Event, id: Id)
    requires NamesOk(w) && IdsIssued(w) && Enabled(w, e) && !AsksStyle(e, id)
    ensures var w' := Step(w, e).0;
            if id in w.players then
              id in w'.players && w'.players[id].styleDay == w.players[id].styleDay
              && w'.players[id].styleClaims == w.players[id].styleClaims
            else id in w'.players ==> w'.players[id].styleDay.None?
  {
    hide AccountStep, MarketStep, DuelStep, NpcStep, ModeStep, Grows, SameArena, SameMarket, SameSwitches, NamesOk;
    if e.Login? {
      LoginEffect(w, e);
      assert e.newId !in w.players;
    } else if e.ClaimDaily? || e.StyleBonus? {
      ClaimEffect(w, e);
    } else {
      OthersKeep(w, e);
      assert id in w.players ==> Keeps(w.players[id], Step(w, e).0.players[id]);
    }
  }

  lemma {:induction false} RunStyle(ws: seq<World>, es: seq<Event>, id: Id, day: int, n: nat)
    requires IsRun(ws, es) && n <= |es|
    ensures StyleOk(ws[n], id, day, StyleCount(ws, es, id, day, n), Visits(es, id, day, n), LastAsked(es, id, n))
  {
    hide AccountStep, MarketStep, DuelStep, NpcStep, ModeStep, Enabled, NamesOk;
    if n > 0 {
      RunStyle(ws, es, id, day, n - 1);
      OneAccountPerName(ws, es, n - 1);
      assert Follows(ws, es, n - 1);
      var last := LastAsked(es, id, n - 1);
      if AsksStyle(es[n - 1], id) {
        if last == Some(day) {
          LastIsVisited(es, id, day, n - 1);
        }
        StyleStep(ws[n - 1], es[n - 1], day, StyleCount(ws, es, id, day, n - 1), Visits(es, id, day, n - 1), last);
      } else {
        OthersKeepStyle(ws[n - 1], es[n - 1], id);
      }
    }
  }

  /** One player's days never go back. */
  ghost predicate DaysForward(es: seq<Event>, id: Id) {
    forall i, j | 0 <= i <= j < |es| && AsksStyle(es[i], id) && AsksStyle(es[j], id) :: es[i].day <= es[j].day
  }

  lemma {:induction false} OneVisit(es: seq<Event>, id: Id, day: int, n: nat)
    requires n <= |es| && DaysForward(es, id)
    ensures Visits(es, id, day, n) <= 1
    ensures Visits(es, id, day, n) == 1 ==> LastAsked(es, id, n).Some? && LastAsked(es, id, n).value >= day
    ensures LastAsked(es, id, n).Some? ==>
      forall j | n <= j < |es| && AsksStyle(es[j], id) :: LastAsked(es, id, n).value <= es[j].day
  {
    if n > 0 {
      OneVisit(es, id, day, n - 1);
    }
  }

  /** At most five style rewards are paid for a day each time the player's requests turn to that
      day; so at most five on any day while the player's days never go back. */
  lemma AtMostFiveStyleRewards(ws: seq<World>, es: seq<Event>, id: Id, day: int, n: nat)
    requires IsRun(ws, es) && n <= |es|
    ensures StyleCount(ws, es, id, day, n) <= 5 * Visits(es, id, day, n)
    ensures DaysForward(es, id) ==> StyleCount(ws, es, id, day, n) <= 5
  {
    hide Step, DaysForward;
    RunStyle(ws, es, id, day, n);
    if LastAsked(es, id, n) == Some(day) {
      LastIsVisited(es, id, day, n);
    }
    if DaysForward(es, id) {
      OneVisit(es, id, day, n);
    }
  }

  /** How many requests in a row, up to the last, the player has made for a day. */
  ghost function AskedInARow(ws: seq<World>, es: seq<Event>, id: Id, day: int, n: nat): nat
    requires |ws| == |es| + 1 && n <= |es|
  {
    if n == 0 then 0
    else if AsksStyle(es[n - 1], id) && id in ws[n - 1].players then
      (if es[n - 1].day == day then AskedInARow(ws, es, id, day, n - 1) + 1 else 0)
    else AskedInARow(ws, es, id, day, n - 1)
  }

  /** What the counter says about a day: requests in a row for it, up to five. */
  ghost predicate CountsRow(w: World, id: Id, day: int, row: nat) {
    if id in w.players && w.players[id].styleDay == Some(day) then w.players[id].styleClaims == Min(row, 5)
    else row == 0
  }

  lemma RowStep(w: World, e: Event, day: int, row: nat)
    requires e.StyleBonus? && e.player in w.players && CountsRow(w, e.player, day, row)
    ensures CountsRow(AccountStep(w, e).0, e.player, day, if e.day == day then row + 1 else 0)
    ensures e.day == day ==> AccountStep(w, e).1 == Reward(if row < 5 then e.reward else 0)
  {
    hide Grows, SameArena, SameMarket, SameSwitches;
  }

  lemma UnknownAsks(w: World, e: Event)
    requires e.StyleBonus? && e.player !in w.players
    ensures AccountStep(w, e) == (w, Refused)
  {
    hide Grows, SameArena, SameMarket, SameSwitches;
  }

  lemma {:induction false} RunRow(ws: seq<World>, es: seq<Event>, id: Id, day: int, n: nat)
    requires IsRun(ws, es) && n <= |es|
    ensures CountsRow(ws[n], id, day, AskedInARow(ws, es, id, day, n))
  {
    hide AccountStep, MarketStep, DuelStep, NpcStep, ModeStep, Enabled, NamesOk;
    if n > 0 {
      RunRow(ws, es, id, day, n - 1);
      OneAccountPerName(ws, es, n - 1);
      assert Follows(ws, es, n - 1);
      if AsksStyle(es[n - 1], id) {
        if id in ws[n - 1].players {
          RowStep(ws[n - 1], es[n - 1], day, AskedInARow(ws, es, id, day, n - 1));
        } else {
          UnknownAsks(ws[n - 1], es[n - 1]);
        }
      } else {
        OthersKeepStyle(ws[n - 1], es[n - 1], id);
      }
    }
  }

  /** At any point of any run, a request by a player who exists is paid in full if fewer than five
      requests in a row for its day came before it, and with nothing otherwise. */
  lemma StyleRewardExact(ws: seq<World>, es: seq<Event>, n: nat)
    requires IsRun(ws, es) && n < |es| && es[n].StyleBonus?
    ensures var e := es[n];
            Step(ws[n], e).1 ==
              if e.player !in ws[n].players then Refused
              else if AskedInARow(ws, es, e.player, e.day, n) < 5 then Reward(e.reward)
              else Reward(0)
  {
    hide AccountStep, MarketStep, DuelStep, NpcStep, ModeStep, Follows, Init, GoodSeeds, CountsRow, Grows;
    RunRow(ws, es, es[n].player, es[n].day, n);
    if es[n].player in ws[n].players {
      RowStep(ws[n], es[n], es[n].day, AskedInARow(ws, es, es[n].player, es[n].day, n));
    } else {
      UnknownAsks(ws[n], es[n]);
    }
  }
}
