/**
 * The match controller (App.tsx): the App component's state cells as the fields of one
 * object and one method per event handler. Each handler runs as one atomic step.
 */
module Controller {
  import opened Types
  import opened Rules
  import opened Share
  import opened Transitions

  class Match {
    /** The score a side must reach, with a two-point lead, to win. */
    const winningScore: int
    /** The reason keys that compact share links index into. */
    const winnerReasonKeys: seq<string>
    const errorReasonKeys: seq<string>

    var gamePhase: GamePhase
    var gameMode: Option<GameMode>
    /** The seven cells the undo stack snapshots: teams, serving team, server, server number, first-serve flag, rally log and score log. */
    var state: GameState
    var winner: Option<Team>
    var gameId: Option<string>
    var matchHistoryLog: seq<MatchResult>
    var gameStateHistory: seq<GameState>
    var isCompactMode: bool
    var scoreFontSizeLevel: int

    /** Doubles exactly when a doubles mode is selected. */
    predicate Doubles()
      reads this`gameMode
    {
      gameMode.Some? && IsDoubles(gameMode.value)
    }

    /**
     * A match in progress: the current state and every undo snapshot are valid, and every
     * snapshot holds the same teams with the same players as the state that followed it.
     */
    ghost predicate Valid()
      reads this`state, this`gameMode, this`gameStateHistory
    {
      MatchValid(state, gameStateHistory, Doubles())
    }

    predicate FontLevelInRange()
      reads this`scoreFontSizeLevel
    {
      MinFontSizeLevel <= scoreFontSizeLevel <= MaxFontSizeLevel
    }

    /** The win test after a point for scoringId: a winner ends the game, otherwise winner and phase stay. */
    twostate predicate WinnerChecked(scoringId: int)
      reads this`state, this`winner, this`gamePhase
    {
      var w := WinnerAfter(state.teams, scoringId, winningScore);
      if w.Some? then winner == w && gamePhase == GameOver
      else winner == old(winner) && gamePhase == old(gamePhase)
    }

    /** The initial state cells. */
    constructor (winningScore: int, winnerReasonKeys: seq<string>, errorReasonKeys: seq<string>)
      ensures this.winningScore == winningScore
      ensures this.winnerReasonKeys == winnerReasonKeys && this.errorReasonKeys == errorReasonKeys
      ensures gamePhase == Home && gameMode == None && state == InitialState
      ensures winner == None && gameId == None
      ensures matchHistoryLog == [] && gameStateHistory == [] && !isCompactMode && scoreFontSizeLevel == 4
      ensures FontLevelInRange()
    {
      this.winningScore := winningScore;
      this.winnerReasonKeys := winnerReasonKeys;
      this.errorReasonKeys := errorReasonKeys;
      gamePhase := Home;
      gameMode := None;
      state := InitialState;
      winner := None;
      gameId := None;
      matchHistoryLog := [];
      gameStateHistory := [];
      isCompactMode := false;
      scoreFontSizeLevel := 4;
    }

    /** handleGameModeSelect: remember the mode and go to the setup screen. */
    method SelectGameMode(mode: GameMode)
      modifies this`gameMode, this`gamePhase
      ensures gameMode == Some(mode) && gamePhase == Setup
    {
      gameMode := Some(mode);
      gamePhase := Setup;
    }

    /**
     * handleGameStart: a no-op when no team holds the first server; otherwise the opening
     * state, no winner, an empty undo stack, a new match id and the game screen. Teams as
     * the setup screen builds them give a valid match with, in doubles, the first server in
     * the designated slot.
     */
    method Start(initialTeams: seq<Team>, firstServerPlayerId: int, now: string)
      modifies this`state, this`winner, this`gameStateHistory, this`gameId, this`gamePhase
      ensures Opening(initialTeams, firstServerPlayerId, old(Doubles())).None? ==>
        && state == old(state) && winner == old(winner) && gameStateHistory == old(gameStateHistory)
        && gameId == old(gameId) && gamePhase == old(gamePhase)
      ensures Opening(initialTeams, firstServerPlayerId, old(Doubles())).Some? ==>
        && state == Opening(initialTeams, firstServerPlayerId, old(Doubles())).value
        && winner == None && gameStateHistory == [] && gameId == Some(now) && gamePhase == Game
      ensures ReadyToOpen(initialTeams, firstServerPlayerId, old(Doubles())) ==>
        Valid() && (old(Doubles()) ==> ServerInSlot(state))
    {
      var doubles := Doubles();
      var opening := Opening(initialTeams, firstServerPlayerId, doubles);
      if opening.None? {
        return;
      }
      OpeningStep(initialTeams, firstServerPlayerId, doubles);
      gameId := Some(now);
      state := opening.value;
      winner := None;
      gameStateHistory := [];
      gamePhase := Game;
      assert Doubles() == doubles;
    }

    /** saveToHistory: push a copy of the current snapshot cells onto the undo stack. */
    method SaveToHistory()
      modifies this`gameStateHistory
      ensures gameStateHistory == old(gameStateHistory) + [state]
    {
      gameStateHistory := gameStateHistory + [state];
    }

    /** One handler step: the undo snapshot of the current state is pushed and the new state installed. */
    method Commit(after: GameState)
      requires MatchValid(after, gameStateHistory + [state], Doubles())
      modifies this`state, this`gameStateHistory
      ensures Valid()
      ensures gameStateHistory == old(gameStateHistory) + [old(state)] && state == after
    {
      SaveToHistory();
      state := after;
    }

    /**
     * handleUndo: with an empty stack nothing happens; otherwise the snapshot cells are set
     * from the top entry, which is popped. The winner and the phase are not restored.
     */
    method Undo()
      requires Valid()
      modifies this`state, this`gameStateHistory
      ensures Valid()
      ensures old(gameStateHistory) == [] ==> state == old(state) && gameStateHistory == []
      ensures old(gameStateHistory) != [] ==>
        && state == old(gameStateHistory[|gameStateHistory| - 1])
        && gameStateHistory == old(gameStateHistory[..|gameStateHistory| - 1])
      ensures SameRoster(old(state.teams), state.teams)
    {
      if gameStateHistory == [] {
        return;
      }
      UndoStep(state, gameStateHistory, Doubles());
      state := gameStateHistory[|gameStateHistory| - 1];
      gameStateHistory := gameStateHistory[..|gameStateHistory| - 1];
    }

    /** The win test of a point for scoringId, applied to winner and phase. */
    method CheckWinner(scoringId: int)
      modifies this`winner, this`gamePhase
      ensures WinnerChecked(scoringId)
    {
      var w := WinnerAfter(state.teams, scoringId, winningScore);
      if w.Some? {
        winner := w;
        gamePhase := GameOver;
      }
    }

    /**
     * handleScoreUpdate: one undo snapshot, a point for scoringTeamId (the pair swapped in
     * doubles), the new scores on the score log and the win test. Serving team and server
     * stay.
     */
    method ScoreUpdate(scoringTeamId: int)
      requires Valid()
      modifies this`state, this`gameStateHistory, this`winner, this`gamePhase
      ensures Valid()
      ensures gameStateHistory == old(gameStateHistory) + [old(state)]
      ensures state == AfterPoint(old(state), scoringTeamId, old(Doubles()))
      ensures WinnerChecked(scoringTeamId)
    {
      var before := state;
      var doubles := Doubles();
      var after := AfterPoint(before, scoringTeamId, doubles);
      PointStep(before, gameStateHistory, scoringTeamId, doubles);
      Commit(after);
      CheckWinner(scoringTeamId);
    }

    /**
     * handleDecrementScore: nothing at all (not even an undo snapshot) unless teamId is the
     * serving team; otherwise one undo snapshot, one point off (floored at 0) and the new
     * scores on the score log. No reordering and no win test.
     */
    method DecrementScore(teamId: int)
      requires Valid()
      modifies this`state, this`gameStateHistory
      ensures Valid()
      ensures old(state.servingTeamId) != Some(teamId) ==>
        state == old(state) && gameStateHistory == old(gameStateHistory)
      ensures old(state.servingTeamId) == Some(teamId) ==>
        && gameStateHistory == old(gameStateHistory) + [old(state)]
        && state == AfterDeduct(old(state), teamId)
    {
      if state.servingTeamId != Some(teamId) {
        return;
      }
      var before := state;
      var doubles := Doubles();
      var after := AfterDeduct(before, teamId);
      DeductStep(before, gameStateHistory, teamId, doubles);
      Commit(after);
    }

    /**
     * handleFault: one undo snapshot, then a side-out or the partner's turn, as AfterFault
     * describes. No score changes.
     */
    method Fault()
      requires Valid()
      modifies this`state, this`gameStateHistory
      ensures Valid()
      ensures gameStateHistory == old(gameStateHistory) + [old(state)]
      ensures state == AfterFault(old(state), old(Doubles()))
    {
      var before := state;
      var doubles := Doubles();
      var after := AfterFault(before, doubles);
      FaultStep(before, gameStateHistory, doubles);
      Commit(after);
    }

    /**
     * handleRecordPoint: a no-op when no serving team is set or no team holds the player.
     * Otherwise one undo snapshot and the rally on the rally log; a rally the serving side
     * wins is a point for it with the win test, any other is a fault, whose own snapshot of
     * the same state makes two undo entries.
     */
    method RecordPoint(playerId: int, kind: RallyKind, reason: string)
      requires Valid()
      modifies this`state, this`gameStateHistory, this`winner, this`gamePhase
      ensures Valid()
      ensures TeamWithPlayer(old(state.teams), playerId).None? ==>
        && state == old(state) && gameStateHistory == old(gameStateHistory)
        && winner == old(winner) && gamePhase == old(gamePhase)
      ensures TeamWithPlayer(old(state.teams), playerId).Some? ==>
        state == AfterRally(old(state), playerId, kind, reason, old(Doubles()))
      ensures ServingSideWon(old(state), playerId, kind) ==>
        && gameStateHistory == old(gameStateHistory) + [old(state)]
        && WinnerChecked(old(state.servingTeamId.value))
      ensures TeamWithPlayer(old(state.teams), playerId).Some? && !ServingSideWon(old(state), playerId, kind) ==>
        && gameStateHistory == old(gameStateHistory) + [old(state), old(state)]
        && winner == old(winner) && gamePhase == old(gamePhase)
    {
      if state.servingTeamId.None? || TeamWithPlayer(state.teams, playerId).None? {
        return;
      }
      if ServingSideWon(state, playerId, kind) {
        RallyWon(playerId, kind, reason);
      } else {
        RallyLost(playerId, kind, reason);
      }
    }

    /** handleRecordPoint for a rally the serving side wins: one snapshot, the rally logged, the point and the win test. */
    method RallyWon(playerId: int, kind: RallyKind, reason: string)
      requires Valid() && ServingSideWon(state, playerId, kind)
      modifies this`state, this`gameStateHistory, this`winner, this`gamePhase
      ensures Valid()
      ensures state == AfterRally(old(state), playerId, kind, reason, old(Doubles()))
      ensures gameStateHistory == old(gameStateHistory) + [old(state)]
      ensures WinnerChecked(old(state.servingTeamId.value))
    {
      var before := state;
      var doubles := Doubles();
      var after := AfterRally(before, playerId, kind, reason, doubles);
      RallyStep(before, gameStateHistory, playerId, kind, reason, doubles);
      Commit(after);
      assert winner == old(winner) && gamePhase == old(gamePhase);
      CheckWinner(before.servingTeamId.value);
    }

    /**
     * handleRecordPoint for a rally the serving side loses: one snapshot, the rally logged
     * and handleFault, whose own snapshot sees the same state as this handler did.
     */
    method RallyLost(playerId: int, kind: RallyKind, reason: string)
      requires Valid() && TeamWithPlayer(state.teams, playerId).Some? && !ServingSideWon(state, playerId, kind)
      modifies this`state, this`gameStateHistory
      ensures Valid()
      ensures state == AfterRally(old(state), playerId, kind, reason, old(Doubles()))
      ensures gameStateHistory == old(gameStateHistory) + [old(state), old(state)]
    {
      var before := state;
      var doubles := Doubles();
      var after := AfterRally(before, playerId, kind, reason, doubles);
      RallyStep(before, gameStateHistory, playerId, kind, reason, doubles);
      SaveToHistory();
      SaveToHistory();
      state := after;
    }

    /**
     * handleSetServer: one undo snapshot, pushed even when no team holds the player, then
     * the clicked player as server as AfterSetServer describes.
     */
    method SetServer(playerId: int)
      requires Valid()
      modifies this`state, this`gameStateHistory
      ensures Valid()
      ensures gameStateHistory == old(gameStateHistory) + [old(state)]
      ensures state == AfterSetServer(old(state), playerId, old(Doubles()))
    {
      var before := state;
      var doubles := Doubles();
      SetServerStep(before, gameStateHistory, playerId, doubles);
      assert StateValid(before, doubles);
      Commit(AfterSetServer(before, playerId, doubles));
    }

    /** resetGame: back to the home screen with no mode, no teams and an empty undo stack; the match log and display settings stay. */
    method Reset()
      modifies this`gamePhase, this`gameMode, this`state, this`winner, this`gameId, this`gameStateHistory
      ensures gamePhase == Home && gameMode == None && state == InitialState
      ensures winner == None && gameId == None && gameStateHistory == []
    {
      gamePhase := Home;
      gameMode := None;
      state := InitialState;
      winner := None;
      gameId := None;
      gameStateHistory := [];
    }

    /** handleClearHistory. */
    method ClearHistory()
      modifies this`matchHistoryLog
      ensures matchHistoryLog == []
    {
      matchHistoryLog := [];
    }

    /** handleToggleCompactMode. */
    method ToggleCompactMode()
      modifies this`isCompactMode
      ensures isCompactMode == !old(isCompactMode)
    {
      isCompactMode := !isCompactMode;
    }

    /** handleIncreaseScoreFontSize: one level up, at most 5. */
    method IncreaseScoreFontSize()
      modifies this`scoreFontSizeLevel
      ensures scoreFontSizeLevel == IncreasedLevel(old(scoreFontSizeLevel))
      ensures old(FontLevelInRange()) ==> FontLevelInRange()
    {
      scoreFontSizeLevel := IncreasedLevel(scoreFontSizeLevel);
    }

    /** handleDecreaseScoreFontSize: one level down, at least 1. */
    method DecreaseScoreFontSize()
      modifies this`scoreFontSizeLevel
      ensures scoreFontSizeLevel == DecreasedLevel(old(scoreFontSizeLevel))
      ensures old(FontLevelInRange()) ==> FontLevelInRange()
    {
      scoreFontSizeLevel := DecreasedLevel(scoreFontSizeLevel);
    }

    /**
     * The finished-match effect: in the game-over phase with a winner and a (non-empty)
     * match id, the finished match is appended to the match log unless a match with that id
     * is already there.
     */
    method RecordFinishedMatch()
      modifies this`matchHistoryLog
      ensures if gamePhase == GameOver && winner.Some? && gameId.Some? && gameId.value != "" && gameMode.Some?
        then matchHistoryLog == AppendIfAbsent(old(matchHistoryLog),
          MatchResult(gameId.value, gameId.value, winner.value, state.teams, gameMode.value, state.gameHistory, state.scoreHistory))
        else matchHistoryLog == old(matchHistoryLog)
      ensures UniqueIds(old(matchHistoryLog)) ==> UniqueIds(matchHistoryLog)
    {
      if gamePhase == GameOver && winner.Some? && gameId.Some? && gameId.value != "" && gameMode.Some? {
        var result := MatchResult(gameId.value, gameId.value, winner.value, state.teams, gameMode.value,
                                  state.gameHistory, state.scoreHistory);
        matchHistoryLog := AppendIfAbsent(matchHistoryLog, result);
      }
    }

    /** The shared-link effect: the decoded match on the shared-result screen. */
    method LoadShared(payload: SharedPayload)
      modifies this`winner, this`state, this`gameMode, this`gamePhase
      ensures var m := Decode(payload, winnerReasonKeys, errorReasonKeys);
        && winner == m.winner && state.teams == m.teams && gameMode == m.gameMode
        && state.gameHistory == m.gameHistory && state.scoreHistory == m.scoreHistory
        && state.servingTeamId == old(state.servingTeamId) && state.serverPlayerId == old(state.serverPlayerId)
        && state.serverNumber == old(state.serverNumber) && state.isFirstServeOfGame == old(state.isFirstServeOfGame)
        && gamePhase == SharedResult
    {
      var m := Decode(payload, winnerReasonKeys, errorReasonKeys);
      winner := m.winner;
      state := state.(teams := m.teams, gameHistory := m.gameHistory, scoreHistory := m.scoreHistory);
      gameMode := m.gameMode;
      gamePhase := SharedResult;
    }

    // ---------------------------------------------------------------- undo round trips

    /**
     * Undo right after a point restores the state and the undo stack from before it; the
     * win test of that point is not undone: a winning point leaves its winner and the
     * game-over phase in place.
     */
    method ScoreUpdateThenUndo(scoringTeamId: int)
      requires Valid()
      modifies this`state, this`gameStateHistory, this`winner, this`gamePhase
      ensures Valid()
      ensures state == old(state) && gameStateHistory == old(gameStateHistory)
      ensures var w := WinnerAfter(AfterPoint(old(state), scoringTeamId, old(Doubles())).teams, scoringTeamId, winningScore);
        if w.Some? then winner == w && gamePhase == GameOver
        else winner == old(winner) && gamePhase == old(gamePhase)
    {
      ScoreUpdate(scoringTeamId);
      Undo();
    }

    /** Undo right after a fault restores the state and the undo stack from before it. */
    method FaultThenUndo()
      requires Valid()
      modifies this`state, this`gameStateHistory
      ensures Valid()
      ensures state == old(state) && gameStateHistory == old(gameStateHistory)
    {
      Fault();
      Undo();
    }

    /**
     * Undo right after a correction of the serving team restores the state and the undo
     * stack; a correction of the other team pushed nothing, so that undo goes one step further back.
     */
    method DecrementScoreThenUndo(teamId: int)
      requires Valid()
      modifies this`state, this`gameStateHistory
      ensures Valid()
      ensures old(state.servingTeamId) == Some(teamId) ==>
        state == old(state) && gameStateHistory == old(gameStateHistory)
      ensures old(state.servingTeamId) != Some(teamId) && old(gameStateHistory) != [] ==>
        && state == old(gameStateHistory[|gameStateHistory| - 1])
        && gameStateHistory == old(gameStateHistory[..|gameStateHistory| - 1])
      ensures old(state.servingTeamId) != Some(teamId) && old(gameStateHistory) == [] ==>
        state == old(state) && gameStateHistory == []
    {
      DecrementScore(teamId);
      Undo();
    }

    /** Undo right after a manual server choice restores the state and the undo stack, even for an unknown player. */
    method SetServerThenUndo(playerId: int)
      requires Valid()
      modifies this`state, this`gameStateHistory
      ensures Valid()
      ensures state == old(state) && gameStateHistory == old(gameStateHistory)
    {
      SetServer(playerId);
      Undo();
    }

    /**
     * Undo right after a recorded rally. For a rally the serving side won, the state and
     * the undo stack are restored and the win test of the point stays in effect. For a
     * rally the serving side lost, the state is restored but a copy of it stays on the
     * undo stack, so a second undo is needed to go further back. For a player no team
     * holds, nothing was pushed, so the undo pops the snapshot from before.
     */
    method RecordPointThenUndo(playerId: int, kind: RallyKind, reason: string)
      requires Valid()
      modifies this`state, this`gameStateHistory, this`winner, this`gamePhase
      ensures Valid()
      ensures ServingSideWon(old(state), playerId, kind) ==>
        && state == old(state) && gameStateHistory == old(gameStateHistory)
        && var id := old(state.servingTeamId.value);
           var w := WinnerAfter(AfterRally(old(state), playerId, kind, reason, old(Doubles())).teams, id, winningScore);
           if w.Some? then winner == w && gamePhase == GameOver
           else winner == old(winner) && gamePhase == old(gamePhase)
      ensures TeamWithPlayer(old(state.teams), playerId).Some? && !ServingSideWon(old(state), playerId, kind) ==>
        && state == old(state) && gameStateHistory == old(gameStateHistory) + [old(state)]
        && winner == old(winner) && gamePhase == old(gamePhase)
      ensures TeamWithPlayer(old(state.teams), playerId).None? ==>
        && winner == old(winner) && gamePhase == old(gamePhase)
        && (old(gameStateHistory) == [] ==> state == old(state) && gameStateHistory == [])
        && (old(gameStateHistory) != [] ==>
              && state == old(gameStateHistory[|gameStateHistory| - 1])
              && gameStateHistory == old(gameStateHistory[..|gameStateHistory| - 1]))
    {
      if TeamWithPlayer(state.teams, playerId).None? {
        UnknownPlayerRallyThenUndo(playerId, kind, reason);
      } else if ServingSideWon(state, playerId, kind) {
        WonRallyThenUndo(playerId, kind, reason);
      } else {
        LostRallyThenUndo(playerId, kind, reason);
      }
    }

    /**
     * Undo after a rally the serving side won (RallyWon, the branch RecordPoint takes for it):
     * state and stack restored, the win test in effect.
     */
    method WonRallyThenUndo(playerId: int, kind: RallyKind, reason: string)
      requires Valid() && ServingSideWon(state, playerId, kind)
      modifies this`state, this`gameStateHistory, this`winner, this`gamePhase
      ensures Valid()
      ensures state == old(state) && gameStateHistory == old(gameStateHistory)
      ensures var id := old(state.servingTeamId.value);
        var w := WinnerAfter(AfterRally(old(state), playerId, kind, reason, old(Doubles())).teams, id, winningScore);
        if w.Some? then winner == w && gamePhase == GameOver
        else winner == old(winner) && gamePhase == old(gamePhase)
    {
      RallyWon(playerId, kind, reason);
      Undo();
    }

    /** Undo after a rally the serving side lost: the state is restored and one copy of it stays on the stack. */
    method LostRallyThenUndo(playerId: int, kind: RallyKind, reason: string)
      requires Valid() && TeamWithPlayer(state.teams, playerId).Some? && !ServingSideWon(state, playerId, kind)
      modifies this`state, this`gameStateHistory, this`winner, this`gamePhase
      ensures Valid()
      ensures state == old(state) && gameStateHistory == old(gameStateHistory) + [old(state)]
      ensures winner == old(winner) && gamePhase == old(gamePhase)
    {
      var before := state;
      var stack := gameStateHistory;
      RecordPoint(playerId, kind, reason);
      assert (stack + [before, before])[..|stack| + 1] == stack + [before];
      Undo();
    }

    /** Undo after a rally by a player no team holds: nothing was pushed, so the undo pops the snapshot from before. */
    method UnknownPlayerRallyThenUndo(playerId: int, kind: RallyKind, reason: string)
      requires Valid() && TeamWithPlayer(state.teams, playerId).None?
      modifies this`state, this`gameStateHistory, this`winner, this`gamePhase
      ensures Valid()
      ensures winner == old(winner) && gamePhase == old(gamePhase)
      ensures old(gameStateHistory) == [] ==> state == old(state) && gameStateHistory == []
      ensures old(gameStateHistory) != [] ==>
        && state == old(gameStateHistory[|gameStateHistory| - 1])
        && gameStateHistory == old(gameStateHistory[..|gameStateHistory| - 1])
    {
      RecordPoint(playerId, kind, reason);
      Undo();
    }
  }
}
