/** The records shared by the scorekeeper's screens and its match controller. */
module Types {

  datatype Option<+T> = None | Some(value: T)

  /** The six ways a match can be played: plain, advanced (rally attribution) and simple (point/fault). */
  datatype GameMode =
    | Singles | Doubles
    | AdvancedSingles | AdvancedDoubles
    | SimpleSingles | SimpleDoubles

  datatype GamePhase = Home | Setup | Game | GameOver | History | SharedResult

  /** Doubles exactly for the three doubles modes. */
  predicate IsDoubles(mode: GameMode) {
    mode == Doubles || mode == AdvancedDoubles || mode == SimpleDoubles
  }

  predicate IsAdvanced(mode: GameMode) {
    mode == AdvancedSingles || mode == AdvancedDoubles
  }

  predicate IsSimple(mode: GameMode) {
    mode == SimpleSingles || mode == SimpleDoubles
  }

  datatype Player = Player(id: int, name: string)

  /** A team: its id (1 or 2 in a match), its players in serving-slot order, and its score. */
  datatype Team = Team(id: int, players: seq<Player>, score: int)

  /** Who ended a rally: a winner forced by the player, or an error the player committed. */
  datatype RallyKind = Winner | Error

  /** One attributed rally outcome. */
  datatype StatPoint = StatPoint(playerId: int, teamId: int, kind: RallyKind, reason: string)

  datatype ScoreSnapshot = ScoreSnapshot(team1Score: int, team2Score: int)

  /** A finished match as kept in the match history. */
  datatype MatchResult = MatchResult(
    id: string,
    timestamp: string,
    winner: Team,
    teams: seq<Team>,
    gameMode: GameMode,
    gameHistory: seq<StatPoint>,
    scoreHistory: seq<ScoreSnapshot>)

  predicate HasPlayer(team: Team, playerId: int) {
    exists p :: p in team.players && p.id == playerId
  }
}
