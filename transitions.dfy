/**
 * The match controller's handlers (App.tsx) as functions from the snapshot state before
 * an event to the state after it, with what each transition keeps and what it changes.
 * The controller class applies these to its fields.
 */
module Transitions {
  import opened Types
  import opened Rules

  /** The same teams in the same order, each with the same players in some order. */
  predicate SameRoster(a: seq<Team>, b: seq<Team>) {
    && |a| == |b|
    && forall i :: 0 <= i < |a| ==> a[i].id == b[i].id && multiset(a[i].players) == multiset(b[i].players)
  }

  lemma {:induction false} SameRosterTransitive(a: seq<Team>, b: seq<Team>, c: seq<Team>)
    requires SameRoster(a, b) && SameRoster(b, c)
    ensures SameRoster(a, c)
  {
  }

  lemma {:induction false} SameRosterSymmetric(a: seq<Team>, b: seq<Team>)
    requires SameRoster(a, b)
    ensures SameRoster(b, a)
  {
  }

  /** The undo stack of a match in progress: valid snapshots of the same roster as the current teams. */
  predicate StackValid(stack: seq<GameState>, teams: seq<Team>, doubles: bool) {
    forall k :: 0 <= k < |stack| ==> StateValid(stack[k], doubles) && SameRoster(stack[k].teams, teams)
  }

  /** Pushing a valid snapshot of the current teams keeps the stack valid for any same-roster successor. */
  lemma {:induction false} PushKeepsStack(stack: seq<GameState>, s: GameState, teams: seq<Team>, doubles: bool)
    requires StackValid(stack, s.teams, doubles)
    requires StateValid(s, doubles)
    requires SameRoster(s.teams, teams)
    ensures StackValid(stack + [s], teams, doubles)
  {
    forall k | 0 <= k < |stack| + 1
      ensures StateValid((stack + [s])[k], doubles) && SameRoster((stack + [s])[k].teams, teams)
    {
      if k < |stack| {
        SameRosterTransitive(stack[k].teams, s.teams, teams);
      }
    }
  }

  /** Popping a valid stack yields a valid snapshot of the same roster, and what is left stays valid for it. */
  lemma {:induction false} PopKeepsStack(stack: seq<GameState>, teams: seq<Team>, doubles: bool)
    requires StackValid(stack, teams, doubles)
    requires stack != []
    ensures var top := stack[|stack| - 1];
      && StateValid(top, doubles)
      && SameRoster(teams, top.teams)
      && StackValid(stack[..|stack| - 1], top.teams, doubles)
  {
    var top := stack[|stack| - 1];
    var rest := stack[..|stack| - 1];
    assert SameRoster(teams, top.teams) by {
      SameRosterSymmetric(top.teams, teams);
    }
    forall k | 0 <= k < |rest|
      ensures StateValid(rest[k], doubles) && SameRoster(rest[k].teams, top.teams)
    {
      assert rest[k] == stack[k];
      SameRosterTransitive(rest[k].teams, teams, top.teams);
    }
  }

  lemma {:induction false} SameMembersSameHolder(t: Team, u: Team, playerId: int)
    requires multiset(t.players) == multiset(u.players)
    ensures HasPlayer(t, playerId) <==> HasPlayer(u, playerId)
  {
    if HasPlayer(t, playerId) {
      var p :| p in t.players && p.id == playerId;
      assert p in multiset(u.players);
    }
    if HasPlayer(u, playerId) {
      var p :| p in u.players && p.id == playerId;
      assert p in multiset(t.players);
    }
  }

  /** Two rosters of the same teams answer every `find` by id or by player at the same position. */
  lemma {:induction false} SameRosterLookups(a: seq<Team>, b: seq<Team>, test: TeamTest)
    requires SameRoster(a, b)
    ensures FindTeamIndex(a, test) == FindTeamIndex(b, test)
  {
    forall i | 0 <= i < |a| ensures Passes(a[i], test) == Passes(b[i], test) {
      if test.HoldsPlayer? {
        SameMembersSameHolder(a[i], b[i], test.playerId);
      }
    }
    FindTeamPointwise(a, test, b, test);
  }

  /** In a well-formed match the team holding a player is the one at index id - 1 for its id. */
  lemma {:induction false} HolderInWellFormed(teams: seq<Team>, doubles: bool, playerId: int)
    requires WellFormedTeams(teams, doubles)
    requires TeamWithPlayer(teams, playerId).Some?
    ensures var t := TeamWithPlayer(teams, playerId).value;
      (t.id == 1 || t.id == 2) && teams[t.id - 1] == t && HasPlayer(t, playerId)
  {
    FindTeamIndexFirst(teams, HoldsPlayer(playerId));
  }

  // ---------------------------------------------------------------- start

  /**
   * handleGameStart: the teams reordered for the first server, that server's team serving,
   * server number 2 in doubles (1 in singles), the first-serve flag set and both logs
   * fresh; None when no team holds the first server.
   */
  function Opening(initialTeams: seq<Team>, firstServerId: int, doubles: bool): (r: Option<GameState>)
    ensures r.Some? <==> TeamWithPlayer(initialTeams, firstServerId).Some?
    ensures r.Some? ==>
      && SameRoster(initialTeams, r.value.teams)
      && r.value.servingTeamId == Some(TeamWithPlayer(initialTeams, firstServerId).value.id)
      && r.value.serverPlayerId == Some(firstServerId)
      && r.value.serverNumber == (if doubles then 2 else 1)
      && r.value.isFirstServeOfGame
      && r.value.gameHistory == []
      && r.value.scoreHistory == [ZeroScores]
  {
    var ordered := OrderTeamsForServer(initialTeams, firstServerId, doubles);
    SameRosterLookups(initialTeams, ordered, HoldsPlayer(firstServerId));
    match TeamWithPlayer(ordered, firstServerId)
    case None => None
    case Some(t) => Some(GameState(ordered, Some(t.id), Some(firstServerId), if doubles then 2 else 1, true, [], [ZeroScores]))
  }

  lemma {:induction false} OrderKeepsWellFormed(initialTeams: seq<Team>, firstServerId: int, doubles: bool)
    requires WellFormedTeams(initialTeams, doubles)
    ensures var ordered := OrderTeamsForServer(initialTeams, firstServerId, doubles);
      && WellFormedTeams(ordered, doubles)
      && (forall i, playerId :: 0 <= i < 2 ==> (HasPlayer(ordered[i], playerId) <==> HasPlayer(initialTeams[i], playerId)))
      && ordered[0].score == initialTeams[0].score && ordered[1].score == initialTeams[1].score
  {
    ReorderKeepsWellFormed(initialTeams, OrderTeamsForServer(initialTeams, firstServerId, doubles), doubles);
  }

  lemma {:induction false} OpeningTeams(initialTeams: seq<Team>, firstServerId: int, doubles: bool)
    requires TeamWithPlayer(initialTeams, firstServerId).Some?
    ensures Opening(initialTeams, firstServerId, doubles).value.teams == OrderTeamsForServer(initialTeams, firstServerId, doubles)
  {
  }

  lemma {:induction false} OpeningScores(initialTeams: seq<Team>, firstServerId: int, doubles: bool)
    requires WellFormedTeams(initialTeams, doubles)
    requires initialTeams[0].score == 0 && initialTeams[1].score == 0
    requires TeamWithPlayer(initialTeams, firstServerId).Some?
    ensures var s := Opening(initialTeams, firstServerId, doubles).value;
      WellFormedTeams(s.teams, doubles) && ScoresOf(s.teams) == ZeroScores
  {
    var ordered := OrderTeamsForServer(initialTeams, firstServerId, doubles);
    OrderKeepsWellFormed(initialTeams, firstServerId, doubles);
    OpeningTeams(initialTeams, firstServerId, doubles);
    ScoresInWellFormed(ordered, doubles);
  }

  lemma {:induction false} OpeningServer(initialTeams: seq<Team>, firstServerId: int, doubles: bool)
    requires WellFormedTeams(initialTeams, doubles)
    requires TeamWithPlayer(initialTeams, firstServerId).Some?
    ensures var s := Opening(initialTeams, firstServerId, doubles).value;
      (s.servingTeamId.value == 1 || s.servingTeamId.value == 2) &&
      HasPlayer(s.teams[s.servingTeamId.value - 1], firstServerId)
  {
    var ordered := OrderTeamsForServer(initialTeams, firstServerId, doubles);
    var t := TeamWithPlayer(initialTeams, firstServerId).value;
    assert (t.id == 1 || t.id == 2) && HasPlayer(initialTeams[t.id - 1], firstServerId) by {
      HolderInWellFormed(initialTeams, doubles, firstServerId);
    }
    assert HasPlayer(ordered[t.id - 1], firstServerId) by {
      OrderKeepsWellFormed(initialTeams, firstServerId, doubles);
    }
    OpeningTeams(initialTeams, firstServerId, doubles);
  }

  /** Starting from teams as the setup screen builds them (well formed, both scores 0) gives a valid match. */
  lemma {:induction false} OpeningValid(initialTeams: seq<Team>, firstServerId: int, doubles: bool)
    requires WellFormedTeams(initialTeams, doubles)
    requires initialTeams[0].score == 0 && initialTeams[1].score == 0
    requires TeamWithPlayer(initialTeams, firstServerId).Some?
    ensures StateValid(Opening(initialTeams, firstServerId, doubles).value, doubles)
  {
    OpeningScores(initialTeams, firstServerId, doubles);
    OpeningServer(initialTeams, firstServerId, doubles);
  }

  /** In doubles the first server stands in the designated slot of the serving team. */
  lemma {:induction false} OpeningSlot(initialTeams: seq<Team>, firstServerId: int)
    requires WellFormedTeams(initialTeams, true)
    requires TeamWithPlayer(initialTeams, firstServerId).Some?
    ensures var s := Opening(initialTeams, firstServerId, true).value;
      s.teams[s.servingTeamId.value - 1].players[ServerSlotIndex(s.servingTeamId.value)].id == firstServerId
  {
    var ordered := OrderTeamsForServer(initialTeams, firstServerId, true);
    var t := TeamWithPlayer(initialTeams, firstServerId).value;
    var k := t.id - 1;
    assert (k == 0 || k == 1) && initialTeams[k] == t && HasPlayer(initialTeams[k], firstServerId) by {
      HolderInWellFormed(initialTeams, true, firstServerId);
    }
    assert ordered[k] == OrderForServer(initialTeams[k], firstServerId, true);
    OpeningTeams(initialTeams, firstServerId, true);
  }

  // ---------------------------------------------------------------- scoring

  /** handleScoreUpdate after its snapshot: a point for teamId, then the new scores appended to the score log. */
  function AfterPoint(s: GameState, teamId: int, doubles: bool): (r: GameState)
    requires doubles ==> forall i :: 0 <= i < |s.teams| && s.teams[i].id == teamId ==> |s.teams[i].players| == 2
    ensures SameRoster(s.teams, r.teams)
    ensures |r.scoreHistory| == |s.scoreHistory| + 1 && r.scoreHistory[..|s.scoreHistory|] == s.scoreHistory
    ensures r.scoreHistory[|s.scoreHistory|] == ScoresOf(r.teams)
    ensures r.servingTeamId == s.servingTeamId && r.serverPlayerId == s.serverPlayerId
    ensures r.serverNumber == s.serverNumber && r.isFirstServeOfGame == s.isFirstServeOfGame
    ensures r.gameHistory == s.gameHistory
  {
    var teams := AwardPoint(s.teams, teamId, doubles);
    s.(teams := teams, scoreHistory := s.scoreHistory + [ScoresOf(teams)])
  }

  /** In a well-formed match the score log entry the handlers build is the two teams' scores in order. */
  lemma {:induction false} ScoresInWellFormed(teams: seq<Team>, doubles: bool)
    requires WellFormedTeams(teams, doubles)
    ensures ScoresOf(teams) == ScoreSnapshot(teams[0].score, teams[1].score)
  {
    LookupsInWellFormed(teams, doubles, 1);
    LookupsInWellFormed(teams, doubles, 2);
  }

  lemma {:induction false} AwardKeepsWellFormed(teams: seq<Team>, teamId: int, doubles: bool)
    requires WellFormedTeams(teams, doubles)
    ensures WellFormedTeams(AwardPoint(teams, teamId, doubles), doubles)
    ensures forall i, playerId :: 0 <= i < 2 ==>
      (HasPlayer(AwardPoint(teams, teamId, doubles)[i], playerId) <==> HasPlayer(teams[i], playerId))
  {
    var r := AwardPoint(teams, teamId, doubles);
    assert Rearranged(teams[0], r[0], doubles) && Rearranged(teams[1], r[1], doubles);
    ReorderKeepsWellFormed(teams, r, doubles);
  }

  /** A point keeps a match valid. */
  lemma {:induction false} PointKeepsValid(s: GameState, teamId: int, doubles: bool)
    requires StateValid(s, doubles)
    ensures StateValid(AfterPoint(s, teamId, doubles), doubles)
  {
    AwardKeepsWellFormed(s.teams, teamId, doubles);
  }

  /** A point for an id that is neither team's changes no team. */
  lemma {:induction false} PointForNoTeam(teams: seq<Team>, teamId: int, doubles: bool)
    requires WellFormedTeams(teams, doubles)
    requires teamId != 1 && teamId != 2
    ensures AwardPoint(teams, teamId, doubles) == teams
  {
    var r := AwardPoint(teams, teamId, doubles);
    assert r[0] == teams[0] && r[1] == teams[1];
  }

  /**
   * A point gives the scoring team exactly one more point and, in doubles, swaps its two
   * players; the other team is untouched.
   */
  lemma {:induction false} PointScores(s: GameState, teamId: int, doubles: bool)
    requires StateValid(s, doubles)
    requires teamId == 1 || teamId == 2
    ensures var r := AfterPoint(s, teamId, doubles).teams;
      && ScoreOf(r, teamId) == ScoreOf(s.teams, teamId) + 1
      && ScoreOf(r, 3 - teamId) == ScoreOf(s.teams, 3 - teamId)
      && r[teamId - 1].players == (if doubles then Swapped(s.teams[teamId - 1].players) else s.teams[teamId - 1].players)
      && r[2 - teamId] == s.teams[2 - teamId]
  {
    var r := AfterPoint(s, teamId, doubles);
    AwardKeepsWellFormed(s.teams, teamId, doubles);
    LookupsInWellFormed(s.teams, doubles, teamId);
    LookupsInWellFormed(r.teams, doubles, teamId);
    LookupsInWellFormed(s.teams, doubles, 3 - teamId);
    LookupsInWellFormed(r.teams, doubles, 3 - teamId);
  }

  /** In a well-formed match, a team is declared winner exactly when its score passes the win test against the other team's. */
  lemma {:induction false} WinnerInWellFormed(teams: seq<Team>, doubles: bool, teamId: int, winningScore: int)
    requires WellFormedTeams(teams, doubles)
    requires teamId == 1 || teamId == 2
    ensures WinnerAfter(teams, teamId, winningScore) ==
      if IsWinningScore(ScoreOf(teams, teamId), ScoreOf(teams, 3 - teamId), winningScore)
      then Some(teams[teamId - 1]) else None
  {
    LookupsInWellFormed(teams, doubles, teamId);
    LookupsInWellFormed(teams, doubles, 3 - teamId);
  }

  /** handleDecrementScore after its snapshot: one point off teamId (never below zero), then the new scores appended to the score log. */
  function AfterDeduct(s: GameState, teamId: int): (r: GameState)
    ensures |r.teams| == |s.teams|
    ensures forall i :: 0 <= i < |s.teams| ==> r.teams[i].players == s.teams[i].players
    ensures |r.scoreHistory| == |s.scoreHistory| + 1 && r.scoreHistory[..|s.scoreHistory|] == s.scoreHistory
    ensures r.scoreHistory[|s.scoreHistory|] == ScoresOf(r.teams)
    ensures r.servingTeamId == s.servingTeamId && r.serverPlayerId == s.serverPlayerId
    ensures r.serverNumber == s.serverNumber && r.isFirstServeOfGame == s.isFirstServeOfGame
    ensures r.gameHistory == s.gameHistory
  {
    var teams := DeductPoint(s.teams, teamId);
    s.(teams := teams, scoreHistory := s.scoreHistory + [ScoresOf(teams)])
  }

  /** A correction keeps a match valid, takes one point off (flooring at zero) and touches no other score and no player order. */
  lemma {:induction false} DeductKeepsValid(s: GameState, teamId: int, doubles: bool)
    requires StateValid(s, doubles)
    ensures StateValid(AfterDeduct(s, teamId), doubles)
    ensures SameRoster(s.teams, AfterDeduct(s, teamId).teams)
    ensures teamId == 1 || teamId == 2 ==>
      var r := AfterDeduct(s, teamId).teams;
      && ScoreOf(r, teamId) == (if ScoreOf(s.teams, teamId) >= 1 then ScoreOf(s.teams, teamId) - 1 else 0)
      && ScoreOf(r, 3 - teamId) == ScoreOf(s.teams, 3 - teamId)
  {
    var r := AfterDeduct(s, teamId);
    ReorderKeepsWellFormed(s.teams, r.teams, doubles);
    if teamId == 1 || teamId == 2 {
      LookupsInWellFormed(s.teams, doubles, teamId);
      LookupsInWellFormed(r.teams, doubles, teamId);
      LookupsInWellFormed(s.teams, doubles, 3 - teamId);
      LookupsInWellFormed(r.teams, doubles, 3 - teamId);
    }
  }

  // ---------------------------------------------------------------- faults and side-outs

  /** A fault passes the serve to the other side: always in singles, and in doubles on the game's first service turn or after the second server. */
  predicate SideOutDue(s: GameState, doubles: bool) {
    !doubles || s.isFirstServeOfGame || s.serverNumber == 2
  }

  /** In a well-formed doubles match the server always has a partner on the same team. */
  lemma {:induction false} PartnerInWellFormed(teams: seq<Team>, id: int, serverId: int)
    requires WellFormedTeams(teams, true)
    requires id == 1 || id == 2
    requires HasPlayer(teams[id - 1], serverId)
    ensures PartnerOf(teams[id - 1].players, serverId).Some?
    ensures HasPlayer(teams[id - 1], PartnerOf(teams[id - 1].players, serverId).value.id)
  {
    var ps := teams[id - 1].players;
    assert ps[0].id != ps[1].id;
  }

  /**
   * handleFault after its snapshot (performSideOut included). No score and no player order
   * changes. A side-out hands the serve to the other team with server number 1, clears the
   * first-serve flag and picks the player in the designated slot (doubles) or the only
   * player (singles); otherwise the partner becomes server number 2.
   */
  function AfterFault(s: GameState, doubles: bool): (r: GameState)
    requires StateValid(s, doubles)
    ensures StateValid(r, doubles)
    ensures r.teams == s.teams && r.gameHistory == s.gameHistory && r.scoreHistory == s.scoreHistory
    ensures SideOutDue(s, doubles) ==>
      var next := 3 - s.servingTeamId.value;
      && r.servingTeamId == Some(next)
      && !r.isFirstServeOfGame
      && r.serverNumber == 1
      && r.serverPlayerId == Some(s.teams[next - 1].players[if doubles then ServerSlotIndex(next) else 0].id)
    ensures !SideOutDue(s, doubles) ==>
      && r.servingTeamId == s.servingTeamId
      && r.isFirstServeOfGame == s.isFirstServeOfGame
      && r.serverNumber == 2
      && r.serverPlayerId != s.serverPlayerId
  {
    var serving := s.servingTeamId.value;
    LookupsInWellFormed(s.teams, doubles, serving);
    if SideOutDue(s, doubles) then
      var next := TeamOtherThan(s.teams, serving).value;
      s.(servingTeamId := Some(next.id), isFirstServeOfGame := false, serverNumber := 1,
         serverPlayerId := Some(SideOutServer(next, doubles)))
    else
      var current := TeamById(s.teams, serving).value;
      PartnerInWellFormed(s.teams, serving, s.serverPlayerId.value);
      s.(serverPlayerId := Some(PartnerOf(current.players, s.serverPlayerId.value).value.id), serverNumber := 2)
  }

  /**
   * A doubles service turn after the first: a fault by server 1 passes the serve to the
   * partner on the same side, and a second fault passes it to the other side.
   */
  lemma {:induction false} DoublesServiceTurn(s: GameState)
    requires StateValid(s, true)
    requires !s.isFirstServeOfGame && s.serverNumber == 1
    ensures var f1 := AfterFault(s, true);
      && f1.servingTeamId == s.servingTeamId && f1.serverNumber == 2
      && var f2 := AfterFault(f1, true);
      && f2.servingTeamId == Some(3 - s.servingTeamId.value) && f2.serverNumber == 1
  {
    var f1 := AfterFault(s, true);
    assert !SideOutDue(s, true);
    assert SideOutDue(f1, true);
  }

  // ---------------------------------------------------------------- rally outcomes

  /** The serving side wins a rally that its own player wins, or that a receiving player loses by an error. */
  predicate ServingSideWinsRally(kind: RallyKind, byServingTeam: bool) {
    (kind == Winner) == byServingTeam
  }

  /** A rally by playerId that a team recognises and that the serving side wins. */
  predicate ServingSideWon(s: GameState, playerId: int, kind: RallyKind) {
    && TeamWithPlayer(s.teams, playerId).Some?
    && s.servingTeamId.Some?
    && ServingSideWinsRally(kind, TeamWithPlayer(s.teams, playerId).value.id == s.servingTeamId.value)
  }

  /**
   * handleRecordPoint after its snapshots: the rally appended to the rally log with the
   * player's own team, then a point for the serving side or a fault; unchanged for a
   * player on no team.
   */
  function AfterRally(s: GameState, playerId: int, kind: RallyKind, reason: string, doubles: bool): (r: GameState)
    requires StateValid(s, doubles)
    ensures TeamWithPlayer(s.teams, playerId).None? ==> r == s
    ensures TeamWithPlayer(s.teams, playerId).Some? ==>
      r.gameHistory == s.gameHistory + [StatPoint(playerId, TeamWithPlayer(s.teams, playerId).value.id, kind, reason)]
  {
    match TeamWithPlayer(s.teams, playerId)
    case None => s
    case Some(team) =>
      var next :=
        if ServingSideWinsRally(kind, team.id == s.servingTeamId.value)
        then AfterPoint(s, s.servingTeamId.value, doubles)
        else AfterFault(s, doubles);
      next.(gameHistory := s.gameHistory + [StatPoint(playerId, team.id, kind, reason)])
  }

  /** Validity does not look at the rally log. */
  lemma {:induction false} ValidWithRallyLog(x: GameState, log: seq<StatPoint>, doubles: bool)
    requires StateValid(x, doubles)
    ensures StateValid(x.(gameHistory := log), doubles)
  {
    assert x.(gameHistory := log).teams == x.teams;
  }

  /** AfterRally is the point or fault transition with the rally appended to the rally log. */
  lemma {:induction false} RallyUnfolds(s: GameState, playerId: int, kind: RallyKind, reason: string, doubles: bool)
    requires StateValid(s, doubles)
    requires TeamWithPlayer(s.teams, playerId).Some?
    ensures var team := TeamWithPlayer(s.teams, playerId).value;
      var log := s.gameHistory + [StatPoint(playerId, team.id, kind, reason)];
      AfterRally(s, playerId, kind, reason, doubles) ==
        if ServingSideWinsRally(kind, team.id == s.servingTeamId.value)
        then AfterPoint(s, s.servingTeamId.value, doubles).(gameHistory := log)
        else AfterFault(s, doubles).(gameHistory := log)
  {
  }

  /** Logging a rally after a transition that keeps a match valid and its roster keeps both. */
  lemma {:induction false} LoggedStepKeepsValid(s: GameState, x: GameState, log: seq<StatPoint>, doubles: bool)
    requires StateValid(x, doubles) && SameRoster(s.teams, x.teams)
    ensures StateValid(x.(gameHistory := log), doubles)
    ensures SameRoster(s.teams, x.(gameHistory := log).teams)
  {
    ValidWithRallyLog(x, log, doubles);
  }

  /** A recorded rally keeps a match valid. */
  lemma {:induction false} RallyKeepsValid(s: GameState, playerId: int, kind: RallyKind, reason: string, doubles: bool)
    requires StateValid(s, doubles)
    ensures StateValid(AfterRally(s, playerId, kind, reason, doubles), doubles)
    ensures SameRoster(s.teams, AfterRally(s, playerId, kind, reason, doubles).teams)
  {
    if TeamWithPlayer(s.teams, playerId).Some? {
      var team := TeamWithPlayer(s.teams, playerId).value;
      var log := s.gameHistory + [StatPoint(playerId, team.id, kind, reason)];
      RallyUnfolds(s, playerId, kind, reason, doubles);
      if ServingSideWinsRally(kind, team.id == s.servingTeamId.value) {
        var x := AfterPoint(s, s.servingTeamId.value, doubles);
        PointKeepsValid(s, s.servingTeamId.value, doubles);
        LoggedStepKeepsValid(s, x, log, doubles);
      } else {
        var x := AfterFault(s, doubles);
        LoggedStepKeepsValid(s, x, log, doubles);
      }
    }
  }

  /** A rally the serving side wins gives the serving team one point and keeps the serve where it is. */
  lemma {:induction false} RallyWonByServingSide(s: GameState, playerId: int, kind: RallyKind, reason: string, doubles: bool)
    requires StateValid(s, doubles)
    requires TeamWithPlayer(s.teams, playerId).Some?
    requires ServingSideWinsRally(kind, TeamWithPlayer(s.teams, playerId).value.id == s.servingTeamId.value)
    ensures var r := AfterRally(s, playerId, kind, reason, doubles);
      var serving := s.servingTeamId.value;
      && ScoreOf(r.teams, serving) == ScoreOf(s.teams, serving) + 1
      && ScoreOf(r.teams, 3 - serving) == ScoreOf(s.teams, 3 - serving)
      && r.servingTeamId == s.servingTeamId && r.serverPlayerId == s.serverPlayerId
      && r.serverNumber == s.serverNumber
  {
    var serving := s.servingTeamId.value;
    assert AfterRally(s, playerId, kind, reason, doubles).teams == AfterPoint(s, serving, doubles).teams;
    PointScores(s, serving, doubles);
  }

  /** A rally the serving side loses changes no score and rotates the serve as a fault does. */
  lemma {:induction false} RallyLostByServingSide(s: GameState, playerId: int, kind: RallyKind, reason: string, doubles: bool)
    requires StateValid(s, doubles)
    requires TeamWithPlayer(s.teams, playerId).Some?
    requires !ServingSideWinsRally(kind, TeamWithPlayer(s.teams, playerId).value.id == s.servingTeamId.value)
    ensures var r := AfterRally(s, playerId, kind, reason, doubles);
      && r.teams == s.teams && r.scoreHistory == s.scoreHistory
      && r.servingTeamId == AfterFault(s, doubles).servingTeamId
      && r.serverPlayerId == AfterFault(s, doubles).serverPlayerId
      && r.serverNumber == AfterFault(s, doubles).serverNumber
  {
  }

  // ---------------------------------------------------------------- manual server choice

  /**
   * handleSetServer after its snapshot: the clicked player becomes server. On the other
   * team that is a side-out onto that team with server number 1 (in doubles the pair is
   * swapped when the clicked player is not in the designated slot); on the serving team in
   * doubles the server number toggles when the server actually changes. Unchanged for a
   * player on no team.
   */
  function AfterSetServer(s: GameState, playerId: int, doubles: bool): (r: GameState)
    requires doubles ==> forall i :: 0 <= i < |s.teams| ==> |s.teams[i].players| == 2
    ensures TeamWithPlayer(s.teams, playerId).None? ==> r == s
    ensures TeamWithPlayer(s.teams, playerId).Some? ==>
      && r.serverPlayerId == Some(playerId)
      && r.servingTeamId == Some(TeamWithPlayer(s.teams, playerId).value.id)
      && r.gameHistory == s.gameHistory && r.scoreHistory == s.scoreHistory
  {
    match TeamWithPlayer(s.teams, playerId)
    case None => s
    case Some(t) =>
      if Some(t.id) != s.servingTeamId then
        var teams :=
          if doubles && PlayerIndex(t.players, playerId) != ServerSlotIndex(t.id)
          then ReplacePlayers(s.teams, t.id, Swapped(t.players))
          else s.teams;
        s.(teams := teams, servingTeamId := Some(t.id), isFirstServeOfGame := false,
           serverNumber := 1, serverPlayerId := Some(playerId))
      else
        s.(serverPlayerId := Some(playerId),
           serverNumber := if doubles && Some(playerId) != s.serverPlayerId then 3 - s.serverNumber else s.serverNumber)
  }

  /** Swapping the pair of one of two well-formed doubles teams rearranges both. */
  lemma {:induction false} SwapRearranges(teams: seq<Team>, k: int)
    requires WellFormedTeams(teams, true) && (k == 0 || k == 1)
    ensures PairRearranged(teams, ReplacePlayers(teams, teams[k].id, Swapped(teams[k].players)), true)
  {
    var r := ReplacePlayers(teams, teams[k].id, Swapped(teams[k].players));
    assert r[k].players == Swapped(teams[k].players);
    assert r[1 - k] == teams[1 - k];
  }

  /** Well-formed teams left as they are count as rearranged. */
  lemma KeptRearranges(teams: seq<Team>, doubles: bool)
    requires WellFormedTeams(teams, doubles)
    ensures PairRearranged(teams, teams, doubles)
  {
  }

  /** The teams after a manual server choice: per team the same id and score, and the same or (doubles) swapped players. */
  lemma {:induction false} SetServerTeams(s: GameState, playerId: int, doubles: bool)
    requires WellFormedTeams(s.teams, doubles)
    ensures PairRearranged(s.teams, AfterSetServer(s, playerId, doubles).teams, doubles)
  {
    var r := AfterSetServer(s, playerId, doubles).teams;
    var found := TeamWithPlayer(s.teams, playerId);
    if found.Some? && Some(found.value.id) != s.servingTeamId && doubles
      && PlayerIndex(found.value.players, playerId) != ServerSlotIndex(found.value.id)
    {
      var t := found.value;
      HolderInWellFormed(s.teams, doubles, playerId);
      var k := t.id - 1;
      assert r == ReplacePlayers(s.teams, s.teams[k].id, Swapped(s.teams[k].players));
      SwapRearranges(s.teams, k);
    } else {
      assert r == s.teams;
      KeptRearranges(s.teams, doubles);
    }
  }

  /** A manual server choice keeps the roster, the scores and every player on the team it was on. */
  lemma {:induction false} SetServerKeepsRoster(s: GameState, playerId: int, doubles: bool)
    requires WellFormedTeams(s.teams, doubles)
    ensures var r := AfterSetServer(s, playerId, doubles).teams;
      && WellFormedTeams(r, doubles)
      && SameRoster(s.teams, r)
      && ScoresOf(r) == ScoresOf(s.teams)
      && (forall i, id :: 0 <= i < 2 ==> (HasPlayer(r[i], id) <==> HasPlayer(s.teams[i], id)))
  {
    var r := AfterSetServer(s, playerId, doubles).teams;
    SetServerTeams(s, playerId, doubles);
    assert |r| == 2 && Rearranged(s.teams[0], r[0], doubles) && Rearranged(s.teams[1], r[1], doubles);
    ReorderKeepsWellFormed(s.teams, r, doubles);
    forall i | 0 <= i < 2
      ensures r[i].id == s.teams[i].id && multiset(s.teams[i].players) == multiset(r[i].players)
    {
      assert Rearranged(s.teams[i], r[i], doubles) by {
        assert i == 0 || i == 1;
      }
      RearrangedMembers(s.teams[i], r[i], doubles);
    }
    ScoresInWellFormed(s.teams, doubles);
    ScoresInWellFormed(r, doubles);
  }

  /** After a manual server choice the server stands on the serving team, which is team 1 or team 2. */
  lemma {:induction false} SetServerHeld(s: GameState, playerId: int, doubles: bool)
    requires StateValid(s, doubles)
    ensures var r := AfterSetServer(s, playerId, doubles);
      && r.servingTeamId.Some? && (r.servingTeamId.value == 1 || r.servingTeamId.value == 2)
      && r.serverPlayerId.Some? && HasPlayer(r.teams[r.servingTeamId.value - 1], r.serverPlayerId.value)
  {
    var r := AfterSetServer(s, playerId, doubles);
    SetServerKeepsRoster(s, playerId, doubles);
    if TeamWithPlayer(s.teams, playerId).Some? {
      var t := TeamWithPlayer(s.teams, playerId).value;
      assert (t.id == 1 || t.id == 2) && HasPlayer(s.teams[t.id - 1], playerId) by {
        HolderInWellFormed(s.teams, doubles, playerId);
      }
      assert r.servingTeamId == Some(t.id) && r.serverPlayerId == Some(playerId);
    }
  }

  /** A manual server choice keeps a match valid, its roster and its scores. */
  lemma {:induction false} SetServerKeepsValid(s: GameState, playerId: int, doubles: bool)
    requires StateValid(s, doubles)
    ensures var r := AfterSetServer(s, playerId, doubles);
      && StateValid(r, doubles)
      && SameRoster(s.teams, r.teams)
      && ScoresOf(r.teams) == ScoresOf(s.teams)
  {
    SetServerKeepsRoster(s, playerId, doubles);
    SetServerHeld(s, playerId, doubles);
  }

  /** Choosing a player on the other team is a side-out: the first-serve flag clears and server number 1 starts. */
  lemma {:induction false} SetServerSideOut(s: GameState, playerId: int, doubles: bool)
    requires TeamWithPlayer(s.teams, playerId).Some?
    requires Some(TeamWithPlayer(s.teams, playerId).value.id) != s.servingTeamId
    requires doubles ==> forall i :: 0 <= i < |s.teams| ==> |s.teams[i].players| == 2
    ensures var r := AfterSetServer(s, playerId, doubles);
      && r.servingTeamId == Some(TeamWithPlayer(s.teams, playerId).value.id)
      && !r.isFirstServeOfGame && r.serverNumber == 1
  {
  }

  /** In doubles, choosing a player on the other team leaves that player in the designated slot of the new serving team. */
  lemma {:induction false} SetServerSlot(s: GameState, playerId: int)
    requires |s.teams| == 2 && s.teams[0].id == 1 && s.teams[1].id == 2
    requires forall i :: 0 <= i < 2 ==> |s.teams[i].players| == 2
    requires TeamWithPlayer(s.teams, playerId).Some?
    requires Some(TeamWithPlayer(s.teams, playerId).value.id) != s.servingTeamId
    ensures var r := AfterSetServer(s, playerId, true);
      r.teams[r.servingTeamId.value - 1].players[ServerSlotIndex(r.servingTeamId.value)].id == playerId
  {
    var r := AfterSetServer(s, playerId, true);
    var t := TeamWithPlayer(s.teams, playerId).value;
    FindTeamIndexFirst(s.teams, HoldsPlayer(playerId));
    var k := FindTeamIndex(s.teams, HoldsPlayer(playerId));
    assert s.teams[k] == t && t.id == k + 1;
    var c := PlayerIndex(t.players, playerId);
    assert c == 0 || c == 1 by {
      var p :| p in t.players && p.id == playerId;
      var j := if t.players[0] == p then 0 else 1;
      PlayerIndexFound(t.players, playerId, j);
    }
    if c != ServerSlotIndex(t.id) {
      assert r.teams == ReplacePlayers(s.teams, t.id, Swapped(t.players));
      assert r.teams[k].players == Swapped(t.players);
    } else {
      assert r.teams == s.teams;
    }
  }

  /**
   * Choosing a player on the serving team changes no team; in doubles the server number
   * toggles exactly when the server changes, in singles it stays.
   */
  lemma {:induction false} SetServerSameTeam(s: GameState, playerId: int, doubles: bool)
    requires StateValid(s, doubles)
    requires TeamWithPlayer(s.teams, playerId).Some?
    requires Some(TeamWithPlayer(s.teams, playerId).value.id) == s.servingTeamId
    ensures var r := AfterSetServer(s, playerId, doubles);
      && r.teams == s.teams
      && r.isFirstServeOfGame == s.isFirstServeOfGame
      && (doubles ==> (r.serverNumber != s.serverNumber <==> r.serverPlayerId != s.serverPlayerId))
      && (!doubles ==> r.serverNumber == s.serverNumber)
  {
  }

  // ---------------------------------------------------------------- handler steps with the undo stack

  /** A match in progress with its undo stack: a valid state over a valid stack. */
  predicate MatchValid(s: GameState, stack: seq<GameState>, doubles: bool) {
    StateValid(s, doubles) && StackValid(stack, s.teams, doubles)
  }

  /** Teams as the setup screen hands them over: well formed, scoreless, and holding the first server. */
  predicate ReadyToOpen(initialTeams: seq<Team>, firstServerId: int, doubles: bool) {
    && TeamWithPlayer(initialTeams, firstServerId).Some?
    && WellFormedTeams(initialTeams, doubles)
    && initialTeams[0].score == 0 && initialTeams[1].score == 0
  }

  /** The server stands in the slot ServerSlotIndex designates on the serving team. */
  predicate ServerInSlot(s: GameState) {
    && s.servingTeamId.Some? && s.serverPlayerId.Some?
    && 1 <= s.servingTeamId.value <= |s.teams|
    && ServerSlotIndex(s.servingTeamId.value) < |s.teams[s.servingTeamId.value - 1].players|
    && s.teams[s.servingTeamId.value - 1].players[ServerSlotIndex(s.servingTeamId.value)].id == s.serverPlayerId.value
  }

  /** handleGameStart on ready teams opens a valid match over an empty undo stack, in doubles with the server in its slot. */
  lemma OpeningStep(initialTeams: seq<Team>, firstServerId: int, doubles: bool)
    ensures ReadyToOpen(initialTeams, firstServerId, doubles) ==>
      && Opening(initialTeams, firstServerId, doubles).Some?
      && MatchValid(Opening(initialTeams, firstServerId, doubles).value, [], doubles)
      && (doubles ==> ServerInSlot(Opening(initialTeams, firstServerId, doubles).value))
  {
    if ReadyToOpen(initialTeams, firstServerId, doubles) {
      OpeningValid(initialTeams, firstServerId, doubles);
      if doubles {
        OpeningSlot(initialTeams, firstServerId);
        OpeningServer(initialTeams, firstServerId, doubles);
      }
    }
  }

  /** handleScoreUpdate keeps a match and its undo stack valid. */
  lemma PointStep(s: GameState, stack: seq<GameState>, teamId: int, doubles: bool)
    ensures MatchValid(s, stack, doubles) ==>
      MatchValid(AfterPoint(s, teamId, doubles), stack + [s], doubles)
  {
    if MatchValid(s, stack, doubles) {
      PointKeepsValid(s, teamId, doubles);
      PushKeepsStack(stack, s, AfterPoint(s, teamId, doubles).teams, doubles);
    }
  }

  /** handleDecrementScore keeps a match and its undo stack valid. */
  lemma DeductStep(s: GameState, stack: seq<GameState>, teamId: int, doubles: bool)
    ensures MatchValid(s, stack, doubles) ==>
      MatchValid(AfterDeduct(s, teamId), stack + [s], doubles)
  {
    if MatchValid(s, stack, doubles) {
      DeductKeepsValid(s, teamId, doubles);
      PushKeepsStack(stack, s, AfterDeduct(s, teamId).teams, doubles);
    }
  }

  /** handleFault keeps a match and its undo stack valid. */
  lemma FaultStep(s: GameState, stack: seq<GameState>, doubles: bool)
    ensures MatchValid(s, stack, doubles) ==>
      MatchValid(AfterFault(s, doubles), stack + [s], doubles)
  {
    if MatchValid(s, stack, doubles) {
      PushKeepsStack(stack, s, AfterFault(s, doubles).teams, doubles);
    }
  }

  /**
   * handleRecordPoint keeps a match and its undo stack valid, both with the one snapshot
   * of a rally the serving side wins and with the two snapshots of one it loses.
   */
  lemma RallyStep(s: GameState, stack: seq<GameState>, playerId: int, kind: RallyKind, reason: string, doubles: bool)
    ensures MatchValid(s, stack, doubles) ==>
      var r := AfterRally(s, playerId, kind, reason, doubles);
      && MatchValid(r, stack + [s], doubles)
      && MatchValid(r, stack + [s, s], doubles)
  {
    if MatchValid(s, stack, doubles) {
      var r := AfterRally(s, playerId, kind, reason, doubles);
      RallyKeepsValid(s, playerId, kind, reason, doubles);
      PushKeepsStack(stack, s, r.teams, doubles);
      PushKeepsStack(stack, s, s.teams, doubles);
      PushKeepsStack(stack + [s], s, r.teams, doubles);
      assert stack + [s] + [s] == stack + [s, s];
    }
  }

  /** handleSetServer keeps a match and its undo stack valid. */
  lemma SetServerStep(s: GameState, stack: seq<GameState>, playerId: int, doubles: bool)
    ensures MatchValid(s, stack, doubles) ==>
      MatchValid(AfterSetServer(s, playerId, doubles), stack + [s], doubles)
  {
    if MatchValid(s, stack, doubles) {
      SetServerKeepsValid(s, playerId, doubles);
      PushKeepsStack(stack, s, AfterSetServer(s, playerId, doubles).teams, doubles);
    }
  }

  /** handleUndo keeps a match and its undo stack valid. */
  lemma UndoStep(s: GameState, stack: seq<GameState>, doubles: bool)
    requires stack != []
    ensures MatchValid(s, stack, doubles) ==>
      && MatchValid(stack[|stack| - 1], stack[..|stack| - 1], doubles)
      && SameRoster(s.teams, stack[|stack| - 1].teams)
  {
    if MatchValid(s, stack, doubles) {
      PopKeepsStack(stack, s.teams, doubles);
    }
  }
}
