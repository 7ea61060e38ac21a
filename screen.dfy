/**
 * The game screen (components/GameScreen.tsx): the score font class, the font-size buttons,
 * the serve arrow's diagonal receiver, which controls are shown, and the rally-attribution
 * panel of advanced modes.
 */
module Screen {
  import opened Types
  import opened Rules
  import opened Transitions
  import opened Setup

  // ---------------------------------------------------------------- the mode tests

  /** The screen's `isDoubles` holds for exactly the three doubles modes, and `isSimpleMode` for exactly the two simple ones. */
  lemma ModeTests(mode: GameMode)
    ensures IsDoubles(mode) <==> mode in {Doubles, AdvancedDoubles, SimpleDoubles}
    ensures IsSimple(mode) <==> mode in {SimpleSingles, SimpleDoubles}
    ensures IsAdvanced(mode) ==> !IsSimple(mode)
  {
  }

  // ---------------------------------------------------------------- score font size

  /** The level the score is drawn at: one smaller in compact mode, never below 1. */
  function EffectiveLevel(level: int, compact: bool): (e: int)
    ensures e >= 1
    ensures e == 1 || (level - 1 <= e <= level)
    ensures !compact && level >= 1 ==> e == level
    ensures compact && level >= 2 ==> e == level - 1
  {
    var shift := if compact then -1 else 0;
    if level + shift > 1 then level + shift else 1
  }

  /** The class table of the score display, one entry per level. */
  const SizeMap: map<int, string> := map[
    1 := "text-5xl md:text-6xl",
    2 := "text-6xl md:text-7xl",
    3 := "text-7xl md:text-8xl",
    4 := "text-8xl md:text-9xl",
    5 := "text-9xl md:text-[10rem]"
  ]

  /** What the `||` falls back to for a level outside the table. */
  const FallbackSizeClass: string := "text-8xl md:text-9xl"

  /** getScoreFontSizeClass: the table entry of the effective level, or the fallback. */
  function ScoreFontSizeClass(level: int, compact: bool): (c: string)
    ensures c in SizeMap.Values
    ensures 1 <= EffectiveLevel(level, compact) <= 5 ==> c == SizeMap[EffectiveLevel(level, compact)]
    ensures EffectiveLevel(level, compact) > 5 ==> c == FallbackSizeClass
  {
    var e := EffectiveLevel(level, compact);
    assert SizeMap[4] == FallbackSizeClass;
    if e in SizeMap && SizeMap[e] != "" then SizeMap[e] else FallbackSizeClass
  }

  /** The five levels show five different sizes. */
  lemma SizeClassesDistinct(a: int, b: int)
    requires 1 <= a <= 5 && 1 <= b <= 5 && a != b
    ensures ScoreFontSizeClass(a, false) != ScoreFontSizeClass(b, false)
  {
  }

  /** Compact mode draws a level like the normal mode draws the level below it, and level 1 alike in both. */
  lemma {:induction false} CompactShiftsOneLevel(level: int)
    ensures level >= 2 ==> ScoreFontSizeClass(level, true) == ScoreFontSizeClass(level - 1, false)
    ensures level <= 2 ==> ScoreFontSizeClass(level, true) == ScoreFontSizeClass(1, false)
  {
    assert EffectiveLevel(1, false) == 1;
    if level >= 2 {
      assert EffectiveLevel(level, true) == EffectiveLevel(level - 1, false);
    }
  }

  /** The "-" font button is disabled at the smallest level. */
  predicate DecreaseDisabled(level: int) {
    level == MinFontSizeLevel
  }

  /** The "+" font button is disabled at the largest level. */
  predicate IncreaseDisabled(level: int) {
    level == MaxFontSizeLevel
  }

  /** Over the levels the controller keeps, a font button is disabled exactly when pressing it would change nothing. */
  lemma FontButtonsDisabledAtClamp(level: int)
    requires MinFontSizeLevel <= level <= MaxFontSizeLevel
    ensures DecreaseDisabled(level) <==> DecreasedLevel(level) == level
    ensures IncreaseDisabled(level) <==> IncreasedLevel(level) == level
  {
  }

  // ---------------------------------------------------------------- the serve arrow

  /** What one run of the arrow update does to the arrow. */
  datatype ArrowUpdate =
    | Clear                        // setArrowCoords(null)
    | Keep                         // an early return: the previous arrow stays
    | Draw(serverTeamIndex: nat, serverIndex: nat, receiverTeamIndex: nat, receiverIndex: nat)

  /**
   * The arrow effect: cleared outside doubles or without a serving team and server; kept
   * when the serving team, the server or a two-player receiving team cannot be found;
   * otherwise drawn from the server to the player diagonally opposite.
   */
  function Arrow(teams: seq<Team>, servingTeamId: Option<int>, serverPlayerId: Option<int>, doubles: bool): (u: ArrowUpdate)
    ensures u.Clear? <==> !doubles || servingTeamId.None? || serverPlayerId.None?
    ensures u.Draw? ==>
      && u.serverTeamIndex < |teams| && teams[u.serverTeamIndex].id == servingTeamId.value
      && u.serverIndex < |teams[u.serverTeamIndex].players|
      && teams[u.serverTeamIndex].players[u.serverIndex].id == serverPlayerId.value
      && u.receiverTeamIndex == (if u.serverTeamIndex == 0 then 1 else 0)
      && u.receiverTeamIndex < |teams| && |teams[u.receiverTeamIndex].players| >= 2
      && u.receiverIndex == (if u.serverIndex == 0 then 1 else 0)
  {
    if !doubles || servingTeamId.None? || serverPlayerId.None? then Clear
    else
      var k := FindTeamIndex(teams, HasId(servingTeamId.value));
      if k == -1 then Keep
      else
        var i := PlayerIndex(teams[k].players, serverPlayerId.value);
        if i == -1 then Keep
        else
          var rk := if k == 0 then 1 else 0;
          if rk >= |teams| || |teams[rk].players| < 2 then Keep
          else
            FindTeamIndexFirst(teams, HasId(servingTeamId.value));
            Draw(k, i, rk, if i == 0 then 1 else 0)
  }

  /**
   * In a doubles match in progress the arrow is always drawn, to a player of the other team,
   * and it joins the same two positions the setup screen pairs: position 2k+i faces 3-(2k+i).
   */
  lemma {:induction false} ArrowFollowsSetupDiagonal(s: GameState)
    requires StateValid(s, true)
    ensures var u := Arrow(s.teams, s.servingTeamId, s.serverPlayerId, true);
      && u.Draw?
      && u.serverTeamIndex == s.servingTeamId.value - 1
      && s.teams[u.receiverTeamIndex].id != s.servingTeamId.value
      && SetupReceiver(2 * u.serverTeamIndex + u.serverIndex) == 2 * u.receiverTeamIndex + u.receiverIndex
  {
    var teams := s.teams;
    var id := s.servingTeamId.value;
    assert teams[1..][0] == teams[1];
    if id == 1 {
      assert FindTeamIndex(teams, HasId(id)) == 0;
    } else {
      assert FindTeamIndex(teams, HasId(id)) == 1;
    }
    var players := teams[id - 1].players;
    var j :| 0 <= j < |players| && players[j].id == s.serverPlayerId.value;
    PlayerIndexFound(players, s.serverPlayerId.value, j);
  }

  // ---------------------------------------------------------------- the controls

  /** Which control panel sits under the court. */
  datatype Controls =
    | ServerPrompt                       // "select a server to start"
    | PointFault(servingTeamId: int)     // simple modes
    | RallyAttribution                   // advanced modes
    | PlusMinus(servingTeamId: int)      // the other modes

  /** The controls branch: a panel only with a serving team found and a server, chosen by mode. */
  function ControlsShown(teams: seq<Team>, servingTeamId: Option<int>, serverPlayerId: Option<int>, mode: GameMode): (c: Controls)
    ensures c.ServerPrompt? <==>
      servingTeamId.None? || serverPlayerId.None? || TeamById(teams, servingTeamId.value).None?
    ensures c.PointFault? <==> !c.ServerPrompt? && IsSimple(mode)
    ensures c.RallyAttribution? <==> !c.ServerPrompt? && IsAdvanced(mode)
    ensures c.PointFault? ==> servingTeamId == Some(c.servingTeamId)
    ensures c.PlusMinus? ==> servingTeamId == Some(c.servingTeamId)
  {
    var servingTeam := if servingTeamId.Some? then TeamById(teams, servingTeamId.value) else None;
    match servingTeam
    case None => ServerPrompt
    case Some(team) =>
      FindTeamFound(teams, HasId(servingTeamId.value));
      if serverPlayerId.None? then ServerPrompt
      else if IsSimple(mode) then PointFault(team.id)
      else if IsAdvanced(mode) then RallyAttribution
      else PlusMinus(team.id)
  }

  /**
   * In a match in progress a panel is always shown, and the "-" of the plus/minus panel
   * always reaches the serving team, so the correction is never the no-op for other teams:
   * it takes one point off that team (not below zero) and leaves the other team's score.
   */
  lemma {:induction false} MinusReachesServingTeam(s: GameState, mode: GameMode)
    requires StateValid(s, IsDoubles(mode))
    ensures !ControlsShown(s.teams, s.servingTeamId, s.serverPlayerId, mode).ServerPrompt?
    ensures var c := ControlsShown(s.teams, s.servingTeamId, s.serverPlayerId, mode);
      c.PlusMinus? ==>
        var id := c.servingTeamId;
        var r := AfterDeduct(s, id).teams;
        && s.servingTeamId == Some(id)
        && ScoreOf(r, id) == (if ScoreOf(s.teams, id) >= 1 then ScoreOf(s.teams, id) - 1 else 0)
        && ScoreOf(r, 3 - id) == ScoreOf(s.teams, 3 - id)
  {
    LookupsInWellFormed(s.teams, IsDoubles(mode), s.servingTeamId.value);
    DeductKeepsValid(s, s.servingTeamId.value, IsDoubles(mode));
  }

  // ---------------------------------------------------------------- rally attribution

  /** The call the outcome buttons make to the controller. */
  datatype RecordCall = RecordCall(playerId: int, kind: RallyKind, reason: string)

  /** The rally-attribution panel: the player picked, if any. */
  class AdvancedControls {
    var actionPlayerId: Option<int>

    constructor()
      ensures actionPlayerId.None?
    {
      actionPlayerId := None;
    }

    /** A player button: that player becomes the one the next outcome is recorded for. */
    method SelectPlayer(playerId: int)
      modifies this
      ensures actionPlayerId == Some(playerId)
    {
      actionPlayerId := Some(playerId);
    }

    /**
     * handleRecord: nothing without a picked player; otherwise the picked player's outcome
     * goes to the controller and the pick is cleared.
     */
    method Record(kind: RallyKind, reason: string) returns (call: Option<RecordCall>)
      modifies this
      ensures old(actionPlayerId).None? ==> call.None?
      ensures old(actionPlayerId).Some? ==> call == Some(RecordCall(old(actionPlayerId).value, kind, reason))
      ensures actionPlayerId.None?
    {
      if actionPlayerId.None? {
        return None;
      }
      call := Some(RecordCall(actionPlayerId.value, kind, reason));
      actionPlayerId := None;
    }
  }
}
