/**
 * The pure half of the match controller (App.tsx): the designated serving slot, the
 * lookups the handlers do with `find`, the `teams.map` rebuilds, the win test, the
 * decoder for the compact share payload and the append-if-absent match log.
 */
module Rules {
  import opened Types

  /** The server-sequence number of doubles: the side's first or second server. */
  type ServerNumber = n: int | n == 1 || n == 2 witness 1

  /** The part of the match state that the undo stack snapshots. */
  datatype GameState = GameState(
    teams: seq<Team>,
    servingTeamId: Option<int>,
    serverPlayerId: Option<int>,
    serverNumber: ServerNumber,
    isFirstServeOfGame: bool,
    gameHistory: seq<StatPoint>,
    scoreHistory: seq<ScoreSnapshot>)

  const ZeroScores := ScoreSnapshot(0, 0)

  /** The snapshot cells before any game: no teams, nobody serving, server 1, the first serve still to come, empty rally log, a score log of 0-0. */
  const InitialState := GameState([], None, None, 1, true, [], [ZeroScores])

  /** The slot that a team's first server of a new service turn must occupy: team 1 uses index 1, any other team index 0. */
  function ServerSlotIndex(teamId: int): (i: nat)
    ensures i < 2
    ensures i == 1 <==> teamId == 1
  {
    if teamId == 1 then 1 else 0
  }

  // ---------------------------------------------------------------- searching

  /** The tests the handlers pass to `find` over the team list. */
  datatype TeamTest =
    | HasId(id: int)               // t => t.id === id
    | OtherId(id: int)             // t => t.id !== id
    | HoldsPlayer(playerId: int)   // t => t.players.some(p => p.id === playerId)

  predicate Passes(t: Team, test: TeamTest) {
    match test
    case HasId(id) => t.id == id
    case OtherId(id) => t.id != id
    case HoldsPlayer(playerId) => HasPlayer(t, playerId)
  }

  /** JavaScript's findIndex over the team list: the first index passing the test, or -1. */
  function FindTeamIndex(teams: seq<Team>, test: TeamTest): (k: int)
    ensures -1 <= k < |teams|
    decreases |teams|
  {
    if teams == [] then -1
    else if Passes(teams[0], test) then 0
    else
      var k := FindTeamIndex(teams[1..], test);
      if k == -1 then -1 else k + 1
  }

  /** JavaScript's find over the team list. */
  function FindTeam(teams: seq<Team>, test: TeamTest): Option<Team> {
    var k := FindTeamIndex(teams, test);
    if k == -1 then None else Some(teams[k])
  }

  /** findIndex returns the first passing index, and -1 exactly when no team passes. */
  lemma {:induction false} FindTeamIndexFirst(teams: seq<Team>, test: TeamTest)
    ensures var k := FindTeamIndex(teams, test);
      && (k >= 0 ==> Passes(teams[k], test) && forall j :: 0 <= j < k ==> !Passes(teams[j], test))
      && (k == -1 <==> forall j :: 0 <= j < |teams| ==> !Passes(teams[j], test))
    decreases |teams|
  {
    if teams != [] && !Passes(teams[0], test) {
      FindTeamIndexFirst(teams[1..], test);
      assert forall j :: 1 <= j < |teams| ==> teams[1..][j - 1] == teams[j];
    }
  }

  /** find returns a team of the list that passes the test, and nothing exactly when no team passes. */
  lemma {:induction false} FindTeamFound(teams: seq<Team>, test: TeamTest)
    ensures FindTeam(teams, test).Some? ==> FindTeam(teams, test).value in teams && Passes(FindTeam(teams, test).value, test)
    ensures FindTeam(teams, test).None? <==> forall j :: 0 <= j < |teams| ==> !Passes(teams[j], test)
  {
    FindTeamIndexFirst(teams, test);
  }

  /** findIndex over two lists whose teams answer the two tests alike, position by position, gives the same index. */
  lemma {:induction false} FindTeamPointwise(a: seq<Team>, ta: TeamTest, b: seq<Team>, tb: TeamTest)
    requires |a| == |b|
    requires forall i :: 0 <= i < |a| ==> Passes(a[i], ta) == Passes(b[i], tb)
    ensures FindTeamIndex(a, ta) == FindTeamIndex(b, tb)
    decreases |a|
  {
    if a != [] && !Passes(a[0], ta) {
      assert forall i :: 0 <= i < |a| - 1 ==> a[1..][i] == a[i + 1] && b[1..][i] == b[i + 1];
      FindTeamPointwise(a[1..], ta, b[1..], tb);
    }
  }

  /** `teams.find(t => t.id === id)`. */
  function TeamById(teams: seq<Team>, id: int): Option<Team> {
    FindTeam(teams, HasId(id))
  }

  /** `teams.find(t => t.id !== id)`. */
  function TeamOtherThan(teams: seq<Team>, id: int): Option<Team> {
    FindTeam(teams, OtherId(id))
  }

  /** `teams.find(t => t.players.some(p => p.id === playerId))`. */
  function TeamWithPlayer(teams: seq<Team>, playerId: int): Option<Team> {
    FindTeam(teams, HoldsPlayer(playerId))
  }

  /** The team found by id is a team of the list with that id, and there is none exactly when no team has it. */
  lemma TeamByIdFound(teams: seq<Team>, id: int)
    ensures TeamById(teams, id).Some? ==> TeamById(teams, id).value in teams && TeamById(teams, id).value.id == id
    ensures TeamById(teams, id).None? <==> forall j :: 0 <= j < |teams| ==> teams[j].id != id
  {
    FindTeamFound(teams, HasId(id));
  }

  /** The team found by another id is a team of the list without this id, and there is none exactly when every team has it. */
  lemma TeamOtherThanFound(teams: seq<Team>, id: int)
    ensures TeamOtherThan(teams, id).Some? ==> TeamOtherThan(teams, id).value in teams && TeamOtherThan(teams, id).value.id != id
    ensures TeamOtherThan(teams, id).None? <==> forall j :: 0 <= j < |teams| ==> teams[j].id == id
  {
    FindTeamFound(teams, OtherId(id));
  }

  /** The team found for a player is a team of the list holding it, and there is none exactly when no team holds it. */
  lemma TeamWithPlayerFound(teams: seq<Team>, playerId: int)
    ensures TeamWithPlayer(teams, playerId).Some? ==> TeamWithPlayer(teams, playerId).value in teams && HasPlayer(TeamWithPlayer(teams, playerId).value, playerId)
    ensures TeamWithPlayer(teams, playerId).None? <==> forall j :: 0 <= j < |teams| ==> !HasPlayer(teams[j], playerId)
  {
    FindTeamFound(teams, HoldsPlayer(playerId));
  }

  /** `players.findIndex(p => p.id === playerId)`: the first position with that id, or -1. */
  function PlayerIndex(players: seq<Player>, playerId: int): (k: int)
    ensures -1 <= k < |players|
    ensures k >= 0 ==> players[k].id == playerId
    decreases |players|
  {
    if players == [] then -1
    else if players[0].id == playerId then 0
    else
      var k := PlayerIndex(players[1..], playerId);
      if k == -1 then -1 else k + 1
  }

  /** A player on the team is found. */
  lemma {:induction false} PlayerIndexFound(players: seq<Player>, playerId: int, j: nat)
    requires j < |players| && players[j].id == playerId
    ensures 0 <= PlayerIndex(players, playerId) <= j
    decreases |players|
  {
    if players[0].id != playerId {
      assert players[1..][j - 1] == players[j];
      PlayerIndexFound(players[1..], playerId, j - 1);
    }
  }

  /** A team's score as the handlers read it: `find(...)?.score || 0`. */
  function ScoreOf(teams: seq<Team>, id: int): int {
    match TeamById(teams, id)
    case Some(t) => t.score
    case None => 0
  }

  /** The score of the first team with the id, or 0 when no team has it. */
  lemma {:induction false} ScoreOfMeaning(teams: seq<Team>, id: int)
    ensures (forall j :: 0 <= j < |teams| ==> teams[j].id != id) ==> ScoreOf(teams, id) == 0
    ensures forall k :: 0 <= k < |teams| && teams[k].id == id && (forall j :: 0 <= j < k ==> teams[j].id != id) ==>
      ScoreOf(teams, id) == teams[k].score
  {
    FindTeamIndexFirst(teams, HasId(id));
  }

  /** The `{ team1Score, team2Score }` entry the handlers push onto the score log. */
  function ScoresOf(teams: seq<Team>): ScoreSnapshot {
    ScoreSnapshot(ScoreOf(teams, 1), ScoreOf(teams, 2))
  }

  /** In a match in progress the score log entry shows team 1's and team 2's scores. */
  lemma ScoresOfWellFormed(teams: seq<Team>, doubles: bool)
    requires WellFormedTeams(teams, doubles)
    ensures ScoresOf(teams) == ScoreSnapshot(teams[0].score, teams[1].score)
  {
    LookupsInWellFormed(teams, doubles, 1);
    LookupsInWellFormed(teams, doubles, 2);
  }

  // ---------------------------------------------------------------- well-formed matches

  /** No player id is used twice, within a team or across teams. */
  predicate DistinctPlayerIds(teams: seq<Team>) {
    forall i, a, j, b ::
      0 <= i < |teams| && 0 <= j < |teams| &&
      0 <= a < |teams[i].players| && 0 <= b < |teams[j].players| &&
      teams[i].players[a].id == teams[j].players[b].id
      ==> i == j && a == b
  }

  /** The roster size of a team: two players in doubles, one in singles. */
  function TeamSize(doubles: bool): nat {
    if doubles then 2 else 1
  }

  /** The shape of a match in progress: teams 1 and 2 in that order, each with a full roster. */
  predicate WellShaped(teams: seq<Team>, doubles: bool) {
    && |teams| == 2
    && teams[0].id == 1 && teams[1].id == 2
    && |teams[0].players| == TeamSize(doubles) && |teams[1].players| == TeamSize(doubles)
  }

  /** Distinct player ids, spelled out for the two or four players of a well-shaped match. */
  predicate DistinctRosterIds(teams: seq<Team>, doubles: bool)
    requires WellShaped(teams, doubles)
  {
    if doubles then
      var a, b := teams[0].players[0].id, teams[0].players[1].id;
      var c, d := teams[1].players[0].id, teams[1].players[1].id;
      a != b && a != c && a != d && b != c && b != d && c != d
    else
      teams[0].players[0].id != teams[1].players[0].id
  }

  /** The teams of a match in progress: well shaped, distinct player ids, no negative score. */
  predicate WellFormedTeams(teams: seq<Team>, doubles: bool) {
    && WellShaped(teams, doubles)
    && teams[0].score >= 0 && teams[1].score >= 0
    && DistinctRosterIds(teams, doubles)
  }

  /** For a well-shaped match the spelled-out check is exactly "no player id used twice". */
  lemma {:induction false} DistinctRosterIdsMeaning(teams: seq<Team>, doubles: bool)
    requires WellShaped(teams, doubles)
    ensures DistinctRosterIds(teams, doubles) <==> DistinctPlayerIds(teams)
  {
  }

  /**
   * A snapshot of a match in progress: a serving team is set, the server is one of its
   * players, and the last entry of the score log shows the current scores.
   */
  predicate StateValid(s: GameState, doubles: bool) {
    && WellFormedTeams(s.teams, doubles)
    && s.servingTeamId.Some? && (s.servingTeamId.value == 1 || s.servingTeamId.value == 2)
    && s.serverPlayerId.Some?
    && HasPlayer(s.teams[s.servingTeamId.value - 1], s.serverPlayerId.value)
    && |s.scoreHistory| > 0 && s.scoreHistory[|s.scoreHistory| - 1] == ScoresOf(s.teams)
  }

  lemma {:induction false} LookupsInWellFormed(teams: seq<Team>, doubles: bool, id: int)
    requires WellFormedTeams(teams, doubles)
    requires id == 1 || id == 2
    ensures TeamById(teams, id) == Some(teams[id - 1])
    ensures TeamOtherThan(teams, id) == Some(teams[2 - id])
    ensures ScoreOf(teams, id) == teams[id - 1].score
  {
    assert teams[1..][0] == teams[1];
    if id == 1 {
      assert FindTeamIndex(teams, HasId(id)) == 0;
      assert FindTeamIndex(teams, OtherId(id)) == 1;
    } else {
      assert FindTeamIndex(teams, HasId(id)) == 1;
      assert FindTeamIndex(teams, OtherId(id)) == 0;
    }
  }

  /** In a well-formed match, the team `find` returns for a player is the one that holds it. */
  lemma {:induction false} TeamWithPlayerInWellFormed(teams: seq<Team>, doubles: bool, playerId: int, k: nat)
    requires WellFormedTeams(teams, doubles)
    requires k < 2 && HasPlayer(teams[k], playerId)
    ensures TeamWithPlayer(teams, playerId) == Some(teams[k])
  {
    assert teams[1..][0] == teams[1];
    if k == 1 {
      assert !HasPlayer(teams[0], playerId);
      assert FindTeamIndex(teams, HoldsPlayer(playerId)) == 1;
    } else {
      assert FindTeamIndex(teams, HoldsPlayer(playerId)) == 0;
    }
  }

  // ---------------------------------------------------------------- the teams.map rebuilds

  /** The pair in the other order: the partners change sides. */
  function Swapped(players: seq<Player>): (r: seq<Player>)
    requires |players| == 2
    ensures |r| == 2 && r[0] == players[1] && r[1] == players[0]
    ensures multiset(r) == multiset(players)
  {
    assert players == [players[0], players[1]];
    [players[1], players[0]]
  }

  /**
   * Start-of-game reordering of one team: in doubles, the team holding the first server
   * is put in the order that places the server at its designated slot.
   */
  function OrderForServer(team: Team, serverId: int, doubles: bool): (r: Team)
    ensures r.id == team.id && r.score == team.score
    ensures multiset(r.players) == multiset(team.players) && |r.players| == |team.players|
    ensures r.players == team.players || (doubles && |team.players| == 2 && r.players == Swapped(team.players))
    ensures doubles && HasPlayer(team, serverId) && |team.players| == 2 ==>
      r.players[ServerSlotIndex(team.id)].id == serverId
    ensures !(doubles && HasPlayer(team, serverId)) ==> r == team
  {
    if doubles && HasPlayer(team, serverId) && |team.players| == 2
      && team.players[ServerSlotIndex(team.id)].id != serverId
    then team.(players := Swapped(team.players))
    else team
  }

  function OrderTeamsForServer(teams: seq<Team>, serverId: int, doubles: bool): (r: seq<Team>)
    ensures |r| == |teams|
    ensures forall i :: 0 <= i < |teams| ==> r[i] == OrderForServer(teams[i], serverId, doubles)
  {
    seq(|teams|, i requires 0 <= i < |teams| => OrderForServer(teams[i], serverId, doubles))
  }

  /**
   * The teams after a point for teamId: that team's score goes up by exactly one and, in
   * doubles, its two players change places; every other team is untouched.
   */
  function AwardPoint(teams: seq<Team>, teamId: int, doubles: bool): (r: seq<Team>)
    requires doubles ==> forall i :: 0 <= i < |teams| && teams[i].id == teamId ==> |teams[i].players| == 2
    ensures |r| == |teams|
    ensures forall i :: 0 <= i < |teams| ==>
      r[i].id == teams[i].id && multiset(r[i].players) == multiset(teams[i].players)
    ensures forall i :: 0 <= i < |teams| && teams[i].id == teamId ==>
      r[i].score == teams[i].score + 1 &&
      r[i].players == (if doubles then Swapped(teams[i].players) else teams[i].players)
    ensures forall i :: 0 <= i < |teams| && teams[i].id != teamId ==> r[i] == teams[i]
  {
    seq(|teams|, i requires 0 <= i < |teams| =>
      var t := teams[i];
      if t.id == teamId then t.(score := t.score + 1, players := if doubles then Swapped(t.players) else t.players)
      else t)
  }

  /** The teams after a correction on teamId: its score goes down by one but never below zero; players are untouched. */
  function DeductPoint(teams: seq<Team>, teamId: int): (r: seq<Team>)
    ensures |r| == |teams|
    ensures forall i :: 0 <= i < |teams| ==> r[i].id == teams[i].id && r[i].players == teams[i].players
    ensures forall i :: 0 <= i < |teams| && teams[i].id == teamId ==>
      r[i].score >= 0 && r[i].score == (if teams[i].score >= 1 then teams[i].score - 1 else 0)
    ensures forall i :: 0 <= i < |teams| && teams[i].id != teamId ==> r[i] == teams[i]
  {
    seq(|teams|, i requires 0 <= i < |teams| =>
      var t := teams[i];
      if t.id == teamId then t.(score := if t.score - 1 > 0 then t.score - 1 else 0) else t)
  }

  /** Replaces the players of every team with the given id (`prev.map(t => t.id === id ? {...t, players} : t)`). */
  function ReplacePlayers(teams: seq<Team>, teamId: int, players: seq<Player>): (r: seq<Team>)
    ensures |r| == |teams|
    ensures forall i :: 0 <= i < |teams| ==> r[i].id == teams[i].id && r[i].score == teams[i].score
    ensures forall i :: 0 <= i < |teams| ==> r[i].players == (if teams[i].id == teamId then players else teams[i].players)
  {
    seq(|teams|, i requires 0 <= i < |teams| =>
      if teams[i].id == teamId then teams[i].(players := players) else teams[i])
  }

  /** One team as a handler rebuilds it: the same id, a non-negative score, and the same players or (doubles) the pair swapped. */
  predicate Rearranged(before: Team, after: Team, doubles: bool) {
    && after.id == before.id && after.score >= 0
    && (after.players == before.players || (doubles && |before.players| == 2 && after.players == Swapped(before.players)))
  }

  /** Two teams each rearranged in place, with the same scores. */
  predicate PairRearranged(before: seq<Team>, after: seq<Team>, doubles: bool) {
    && |before| == 2 && |after| == 2
    && Rearranged(before[0], after[0], doubles) && Rearranged(before[1], after[1], doubles)
    && after[0].score == before[0].score && after[1].score == before[1].score
  }

  /** A rearranged team holds exactly the players it held before. */
  lemma {:induction false} RearrangedHolds(before: Team, after: Team, doubles: bool, playerId: int)
    requires Rearranged(before, after, doubles)
    ensures HasPlayer(after, playerId) <==> HasPlayer(before, playerId)
  {
    if after.players != before.players {
      var ps := before.players;
      assert ps == [ps[0], ps[1]] && after.players == [ps[1], ps[0]];
      if HasPlayer(before, playerId) {
        var p :| p in ps && p.id == playerId;
        assert p in after.players;
      }
      if HasPlayer(after, playerId) {
        var p :| p in after.players && p.id == playerId;
        assert p in ps;
      }
    }
  }

  /** A rearranged team has the same players, counted with multiplicity. */
  lemma RearrangedMembers(before: Team, after: Team, doubles: bool)
    requires Rearranged(before, after, doubles)
    ensures multiset(after.players) == multiset(before.players)
  {
  }

  /**
   * Rebuilding both teams of a well-formed match so that each is rearranged leaves the
   * match well formed and every player on the team it was on.
   */
  lemma {:induction false} ReorderKeepsWellFormed(teams: seq<Team>, r: seq<Team>, doubles: bool)
    requires WellFormedTeams(teams, doubles)
    requires |r| == 2 && Rearranged(teams[0], r[0], doubles) && Rearranged(teams[1], r[1], doubles)
    ensures WellFormedTeams(r, doubles)
    ensures forall i, playerId :: 0 <= i < 2 ==> (HasPlayer(r[i], playerId) <==> HasPlayer(teams[i], playerId))
  {
    forall i, playerId | 0 <= i < 2
      ensures HasPlayer(r[i], playerId) <==> HasPlayer(teams[i], playerId)
    {
      RearrangedHolds(teams[i], r[i], doubles, playerId);
    }
  }

  // ---------------------------------------------------------------- winning and side-outs

  /** A side wins when its score reaches the winning score with a lead of at least two. */
  predicate IsWinningScore(score: int, otherScore: int, winningScore: int) {
    score >= winningScore && score >= otherScore + 2
  }

  /** The winner the handlers declare after a point for scoringId: that team, if it and an opponent exist and the win test holds. */
  function WinnerAfter(teams: seq<Team>, scoringId: int, winningScore: int): (w: Option<Team>)
    ensures w.Some? ==> w.value in teams && w.value.id == scoringId && w.value.score >= winningScore
    ensures w.Some? <==>
      TeamById(teams, scoringId).Some? && TeamOtherThan(teams, scoringId).Some? &&
      IsWinningScore(TeamById(teams, scoringId).value.score, TeamOtherThan(teams, scoringId).value.score, winningScore)
  {
    var scoring := TeamById(teams, scoringId);
    var other := TeamOtherThan(teams, scoringId);
    FindTeamFound(teams, HasId(scoringId));
    if scoring.Some? && other.Some? && IsWinningScore(scoring.value.score, other.value.score, winningScore)
    then scoring else None
  }

  /** Both sides of a match can never pass the win test at once. */
  lemma AtMostOneWinner(s1: int, s2: int, winningScore: int)
    ensures !(IsWinningScore(s1, s2, winningScore) && IsWinningScore(s2, s1, winningScore))
  {
  }

  /** The first server of a new service turn: the designated slot in doubles, the only player in singles. */
  function SideOutServer(next: Team, doubles: bool): (id: int)
    requires |next.players| > (if doubles then ServerSlotIndex(next.id) else 0)
    ensures HasPlayer(next, id)
    ensures doubles ==> next.players[ServerSlotIndex(next.id)].id == id
    ensures !doubles ==> next.players[0].id == id
  {
    if doubles then next.players[ServerSlotIndex(next.id)].id else next.players[0].id
  }

  /** In doubles, the other player of the serving pair: `players.find(p => p.id !== serverId)`. */
  function PartnerOf(players: seq<Player>, id: int): (r: Option<Player>)
    ensures r.Some? ==> r.value in players && r.value.id != id
    ensures r.None? <==> forall j :: 0 <= j < |players| ==> players[j].id == id
    decreases |players|
  {
    if players == [] then None
    else if players[0].id != id then Some(players[0])
    else
      var r := PartnerOf(players[1..], id);
      assert forall j :: 1 <= j < |players| ==> players[1..][j - 1] == players[j];
      r
  }

  // ---------------------------------------------------------------- font-size level clamps

  const MinFontSizeLevel := 1
  const MaxFontSizeLevel := 5

  function IncreasedLevel(level: int): (r: int)
    ensures r <= MaxFontSizeLevel
    ensures level < MaxFontSizeLevel ==> r == level + 1
    ensures level >= MaxFontSizeLevel ==> r == MaxFontSizeLevel
  {
    if level + 1 < MaxFontSizeLevel then level + 1 else MaxFontSizeLevel
  }

  function DecreasedLevel(level: int): (r: int)
    ensures r >= MinFontSizeLevel
    ensures level > MinFontSizeLevel ==> r == level - 1
    ensures level <= MinFontSizeLevel ==> r == MinFontSizeLevel
  {
    if level - 1 > MinFontSizeLevel then level - 1 else MinFontSizeLevel
  }

  // ---------------------------------------------------------------- the finished-match log

  predicate LogHas(log: seq<MatchResult>, id: string) {
    exists i :: 0 <= i < |log| && log[i].id == id
  }

  predicate UniqueIds(log: seq<MatchResult>) {
    forall i, j :: 0 <= i < j < |log| ==> log[i].id != log[j].id
  }

  /** The log after a finished match: appended only when no entry has its id yet. */
  function AppendIfAbsent(log: seq<MatchResult>, m: MatchResult): (r: seq<MatchResult>)
    ensures LogHas(r, m.id)
    ensures |log| <= |r| <= |log| + 1 && r[..|log|] == log
    ensures |r| == |log| + 1 <==> !LogHas(log, m.id)
    ensures |r| == |log| + 1 ==> r[|log|] == m
    ensures UniqueIds(log) ==> UniqueIds(r)
  {
    if LogHas(log, m.id) then log
    else assert (log + [m])[|log|] == m; log + [m]
  }

  /** Logging the same finished match again changes nothing. */
  lemma AppendIfAbsentIdempotent(log: seq<MatchResult>, m: MatchResult)
    ensures AppendIfAbsent(AppendIfAbsent(log, m), m) == AppendIfAbsent(log, m)
  {
  }
}
