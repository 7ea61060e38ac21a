/**
 * The shared-result link (App.tsx): the payload, once base64- and JSON-decoded, is either
 * the compact positional tuple
 *   [version, modeIndex, winnerTeamId, [[teamId, [names...], score]...],
 *    [[playerId, 0 for a winner | other for an error, reasonIndex]...], [[score1, score2]...]]
 * or the legacy verbose object, which already has the shape of the match state.
 */
module Share {
  import opened Types
  import opened Rules

  datatype CompactTeam = CompactTeam(teamId: int, names: seq<string>, score: int)
  datatype CompactRally = CompactRally(playerId: int, kind: int, reasonIndex: int)
  datatype CompactScore = CompactScore(team1Score: int, team2Score: int)
  datatype CompactPayload = CompactPayload(
    version: int,
    modeIndex: int,
    winnerId: int,
    teams: seq<CompactTeam>,
    history: seq<CompactRally>,
    scores: seq<CompactScore>)

  /** What a shared link puts on the result screen. */
  datatype SharedMatch = SharedMatch(
    winner: Option<Team>,
    teams: seq<Team>,
    gameMode: Option<GameMode>,
    gameHistory: seq<StatPoint>,
    scoreHistory: seq<ScoreSnapshot>)

  /** The two schemas, told apart by the payload's shape (array or object). */
  datatype SharedPayload = Compact(compact: CompactPayload) | Verbose(verbose: SharedMatch)

  /** The mode table the compact form indexes into. */
  const ModeOrder: seq<GameMode> :=
    [Singles, Doubles, AdvancedSingles, AdvancedDoubles, SimpleSingles, SimpleDoubles]

  /** `modeMap[modeIdx]`: None stands for the undefined an index outside the table gives. */
  function ModeAt(index: int): (m: Option<GameMode>)
    ensures m.Some? <==> 0 <= index < 6
  {
    if 0 <= index < |ModeOrder| then Some(ModeOrder[index]) else None
  }

  /** Team 1's player at position i gets id i; any other team's gets id i + 2. */
  function DecodedPlayerId(teamId: int, position: nat): int {
    if teamId == 1 then position else position + 2
  }

  function DecodeTeam(ct: CompactTeam): (t: Team)
    ensures t.id == ct.teamId && t.score == ct.score && |t.players| == |ct.names|
    ensures forall i :: 0 <= i < |ct.names| ==> t.players[i].name == ct.names[i]
    ensures forall i :: 0 <= i < |ct.names| ==> t.players[i].id == (if ct.teamId == 1 then i else i + 2)
  {
    Team(ct.teamId,
         seq(|ct.names|, i requires 0 <= i < |ct.names| => Player(DecodedPlayerId(ct.teamId, i), ct.names[i])),
         ct.score)
  }

  /** `keys[index]`; the empty string stands for the undefined an out-of-range index gives. */
  function KeyAt(keys: seq<string>, index: int): (k: string)
    ensures 0 <= index < |keys| ==> k == keys[index]
  {
    if 0 <= index < |keys| then keys[index] else ""
  }

  /** The team id a decoded rally entry carries: the first team holding its player, else 0. */
  function TeamIdOf(teams: seq<Team>, playerId: int): (id: int)
    ensures TeamWithPlayer(teams, playerId).Some? ==> id == TeamWithPlayer(teams, playerId).value.id
    ensures TeamWithPlayer(teams, playerId).None? ==> id == 0
  {
    match TeamWithPlayer(teams, playerId)
    case Some(t) => t.id
    case None => 0
  }

  function DecodeRally(teams: seq<Team>, ch: CompactRally, winnerKeys: seq<string>, errorKeys: seq<string>): (e: StatPoint)
    ensures e.playerId == ch.playerId && e.teamId == TeamIdOf(teams, ch.playerId)
    ensures e.kind == Winner <==> ch.kind == 0
    ensures e.reason == KeyAt(if ch.kind == 0 then winnerKeys else errorKeys, ch.reasonIndex)
  {
    StatPoint(ch.playerId, TeamIdOf(teams, ch.playerId),
              if ch.kind == 0 then Winner else Error,
              if ch.kind == 0 then KeyAt(winnerKeys, ch.reasonIndex) else KeyAt(errorKeys, ch.reasonIndex))
  }

  function DecodeTeams(cts: seq<CompactTeam>): (teams: seq<Team>)
    ensures |teams| == |cts|
    ensures forall i :: 0 <= i < |cts| ==> teams[i] == DecodeTeam(cts[i])
  {
    seq(|cts|, i requires 0 <= i < |cts| => DecodeTeam(cts[i]))
  }

  /**
   * The compact decoder: teams in order, every rally entry attributed to the team that
   * holds its player, one snapshot per score pair, and the winner looked up by id.
   */
  function DecodeCompact(p: CompactPayload, winnerKeys: seq<string>, errorKeys: seq<string>): (m: SharedMatch)
    ensures m.teams == DecodeTeams(p.teams)
    ensures m.gameMode == ModeAt(p.modeIndex)
    ensures m.winner == TeamById(m.teams, p.winnerId)
    ensures m.winner.Some? ==> m.winner.value in m.teams && m.winner.value.id == p.winnerId
    ensures |m.gameHistory| == |p.history|
    ensures forall i :: 0 <= i < |p.history| ==> m.gameHistory[i] == DecodeRally(m.teams, p.history[i], winnerKeys, errorKeys)
    ensures |m.scoreHistory| == |p.scores|
    ensures forall i :: 0 <= i < |p.scores| ==>
      m.scoreHistory[i] == ScoreSnapshot(p.scores[i].team1Score, p.scores[i].team2Score)
  {
    var teams := DecodeTeams(p.teams);
    FindTeamFound(teams, HasId(p.winnerId));
    SharedMatch(
      TeamById(teams, p.winnerId),
      teams,
      ModeAt(p.modeIndex),
      seq(|p.history|, i requires 0 <= i < |p.history| => DecodeRally(teams, p.history[i], winnerKeys, errorKeys)),
      seq(|p.scores|, i requires 0 <= i < |p.scores| => ScoreSnapshot(p.scores[i].team1Score, p.scores[i].team2Score)))
  }

  /** The shared-link handler: the compact form is decoded, the verbose form is taken as it is. */
  function Decode(payload: SharedPayload, winnerKeys: seq<string>, errorKeys: seq<string>): SharedMatch {
    match payload
    case Compact(p) => DecodeCompact(p, winnerKeys, errorKeys)
    case Verbose(m) => m
  }

  // ---------------------------------------------------------------- a reference encoder

  function ModeIndex(mode: Option<GameMode>): (i: int)
    ensures ModeAt(i) == mode
  {
    match mode
    case None => |ModeOrder|
    case Some(m) =>
      match m
      case Singles => 0
      case Doubles => 1
      case AdvancedSingles => 2
      case AdvancedDoubles => 3
      case SimpleSingles => 4
      case SimpleDoubles => 5
  }

  function EncodeTeam(t: Team): (ct: CompactTeam)
    ensures ct.teamId == t.id && ct.score == t.score && |ct.names| == |t.players|
  {
    CompactTeam(t.id, seq(|t.players|, i requires 0 <= i < |t.players| => t.players[i].name), t.score)
  }

  /** The position of a reason key in its list: the index the compact form stores. */
  function KeyIndex(keys: seq<string>, key: string): (k: int)
    ensures key in keys ==> 0 <= k < |keys| && keys[k] == key
    decreases |keys|
  {
    if keys == [] then -1
    else if keys[0] == key then 0
    else
      var k := KeyIndex(keys[1..], key);
      if k == -1 then -1 else k + 1
  }

  function EncodeRally(e: StatPoint, winnerKeys: seq<string>, errorKeys: seq<string>): CompactRally {
    CompactRally(
      e.playerId,
      if e.kind == Winner then 0 else 1,
      KeyIndex(if e.kind == Winner then winnerKeys else errorKeys, e.reason))
  }

  function EncodeCompact(m: SharedMatch, version: int, winnerKeys: seq<string>, errorKeys: seq<string>): CompactPayload {
    CompactPayload(
      version,
      ModeIndex(m.gameMode),
      match m.winner case Some(w) => w.id case None => 0,
      seq(|m.teams|, i requires 0 <= i < |m.teams| => EncodeTeam(m.teams[i])),
      seq(|m.gameHistory|, i requires 0 <= i < |m.gameHistory| => EncodeRally(m.gameHistory[i], winnerKeys, errorKeys)),
      seq(|m.scoreHistory|, i requires 0 <= i < |m.scoreHistory| =>
        CompactScore(m.scoreHistory[i].team1Score, m.scoreHistory[i].team2Score)))
  }

  /** Player ids follow the positions the decoder assigns. */
  predicate CanonicalIds(teams: seq<Team>) {
    forall i, j :: 0 <= i < |teams| && 0 <= j < |teams[i].players| ==>
      teams[i].players[j].id == DecodedPlayerId(teams[i].id, j)
  }

  /**
   * The matches the compact form carries without loss: canonical player ids, every rally
   * entry attributed to its player's team with a reason from the matching key list, and a
   * winner that is the first team with its id (or no winner and no team with id 0).
   */
  predicate Canonical(m: SharedMatch, winnerKeys: seq<string>, errorKeys: seq<string>) {
    && CanonicalIds(m.teams)
    && (forall i :: 0 <= i < |m.gameHistory| ==>
         && m.gameHistory[i].teamId == TeamIdOf(m.teams, m.gameHistory[i].playerId)
         && m.gameHistory[i].reason in (if m.gameHistory[i].kind == Winner then winnerKeys else errorKeys))
    && (match m.winner
        case Some(w) => TeamById(m.teams, w.id) == m.winner
        case None => TeamById(m.teams, 0).None?)
  }

  lemma {:induction false} TeamRoundTrip(t: Team)
    requires forall j :: 0 <= j < |t.players| ==> t.players[j].id == DecodedPlayerId(t.id, j)
    ensures DecodeTeam(EncodeTeam(t)) == t
  {
    var d := DecodeTeam(EncodeTeam(t));
    assert d.players == t.players by {
      forall j | 0 <= j < |t.players| ensures d.players[j] == t.players[j] {
      }
    }
  }

  lemma {:induction false} RallyRoundTrip(teams: seq<Team>, e: StatPoint, winnerKeys: seq<string>, errorKeys: seq<string>)
    requires e.teamId == TeamIdOf(teams, e.playerId)
    requires e.reason in (if e.kind == Winner then winnerKeys else errorKeys)
    ensures DecodeRally(teams, EncodeRally(e, winnerKeys, errorKeys), winnerKeys, errorKeys) == e
  {
  }

  /** Decoding a compactly encoded canonical match gives the match back. */
  lemma {:induction false} CompactRoundTrip(m: SharedMatch, version: int, winnerKeys: seq<string>, errorKeys: seq<string>)
    requires Canonical(m, winnerKeys, errorKeys)
    ensures DecodeCompact(EncodeCompact(m, version, winnerKeys, errorKeys), winnerKeys, errorKeys) == m
  {
    var p := EncodeCompact(m, version, winnerKeys, errorKeys);
    var d := DecodeCompact(p, winnerKeys, errorKeys);
    assert d.teams == m.teams by {
      forall i | 0 <= i < |m.teams| ensures d.teams[i] == m.teams[i] {
        TeamRoundTrip(m.teams[i]);
      }
    }
    assert d.gameHistory == m.gameHistory by {
      forall i | 0 <= i < |m.gameHistory| ensures d.gameHistory[i] == m.gameHistory[i] {
        RallyRoundTrip(m.teams, m.gameHistory[i], winnerKeys, errorKeys);
      }
    }
    assert d.scoreHistory == m.scoreHistory;
  }
  /** Either form of a shared link to a canonical match opens that match. */
  lemma DecodeRoundTrip(m: SharedMatch, version: int, winnerKeys: seq<string>, errorKeys: seq<string>)
    requires Canonical(m, winnerKeys, errorKeys)
    ensures Decode(Compact(EncodeCompact(m, version, winnerKeys, errorKeys)), winnerKeys, errorKeys) == m
    ensures Decode(Verbose(m), winnerKeys, errorKeys) == m
  {
    CompactRoundTrip(m, version, winnerKeys, errorKeys);
  }

}
