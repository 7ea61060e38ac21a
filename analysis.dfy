/**
 * The game-over screen (components/GameOverScreen.tsx): the final score line, the bounds
 * of the score-trend chart, and the match analysis of advanced modes, with a summary of
 * winners and errors per player and a per-reason breakdown for one player.
 */
module Analysis {
  import opened Types
  import opened Rules
  import opened Text

  // ---------------------------------------------------------------- maxima with a floor

  /** `Math.max(...xs, floor)`: the largest of the values and the floor. */
  function MaxWithFloor(xs: seq<int>, floor: int): (m: int)
    ensures m >= floor
    ensures forall i :: 0 <= i < |xs| ==> xs[i] <= m
    ensures m == floor || exists i :: 0 <= i < |xs| && xs[i] == m
    decreases |xs|
  {
    if xs == [] then floor
    else
      var rest := MaxWithFloor(xs[1..], floor);
      assert forall i :: 1 <= i < |xs| ==> xs[i] == xs[1..][i - 1];
      if xs[0] > rest then xs[0] else rest
  }

  // ---------------------------------------------------------------- final score and trend chart

  /** "<winner's score> - <loser's score>" when a team other than the winner exists, else the winner's score alone. */
  function FinalScore(winner: Team, teams: seq<Team>): (s: string)
    ensures TeamOtherThan(teams, winner.id).Some? ==>
      s == IntToString(winner.score) + " - " + IntToString(TeamOtherThan(teams, winner.id).value.score)
    ensures TeamOtherThan(teams, winner.id).None? ==> s == IntToString(winner.score)
  {
    match TeamOtherThan(teams, winner.id)
    case Some(loser) => IntToString(winner.score) + " - " + IntToString(loser.score)
    case None => IntToString(winner.score)
  }

  /** Two space-free parts joined by " - " can be told apart again. */
  lemma {:induction false} SeparatorSplits(a: string, b: string, c: string, d: string)
    requires ' ' !in a && ' ' !in c
    requires a + " - " + b == c + " - " + d
    ensures a == c && b == d
  {
    var x := a + " - " + b;
    assert x[|a|] == ' ' && forall i :: 0 <= i < |a| ==> x[i] == a[i] != ' ';
    assert x[|c|] == ' ' && forall i :: 0 <= i < |c| ==> x[i] == c[i] != ' ';
    assert a == x[..|a|] == c;
    assert b == x[|a| + 3..] == d;
  }

  /** The final score line shows a " - " exactly when there is a losing team, and then it shows both scores unambiguously. */
  lemma {:induction false} FinalScoreReadsBack(w1: Team, teams1: seq<Team>, w2: Team, teams2: seq<Team>)
    requires FinalScore(w1, teams1) == FinalScore(w2, teams2)
    requires TeamOtherThan(teams1, w1.id).Some? && TeamOtherThan(teams2, w2.id).Some?
    ensures w1.score == w2.score
    ensures TeamOtherThan(teams1, w1.id).value.score == TeamOtherThan(teams2, w2.id).value.score
  {
    var l1 := TeamOtherThan(teams1, w1.id).value;
    var l2 := TeamOtherThan(teams2, w2.id).value;
    SeparatorSplits(IntToString(w1.score), IntToString(l1.score), IntToString(w2.score), IntToString(l2.score));
    IntToStringInjective(w1.score, w2.score);
    IntToStringInjective(l1.score, l2.score);
  }

  /** A line with a losing team has a space in it, one without has none. */
  lemma FinalScoreShape(winner: Team, teams: seq<Team>)
    ensures ' ' in FinalScore(winner, teams) <==> TeamOtherThan(teams, winner.id).Some?
  {
    var s := FinalScore(winner, teams);
    if TeamOtherThan(teams, winner.id).Some? {
      assert s[|IntToString(winner.score)|] == ' ';
    }
  }

  /** The per-snapshot values the trend chart scales to: the larger of the two scores. */
  function SnapshotMaxima(history: seq<ScoreSnapshot>): (xs: seq<int>)
    ensures |xs| == |history|
    ensures forall i :: 0 <= i < |history| ==>
      xs[i] >= history[i].team1Score && xs[i] >= history[i].team2Score &&
      (xs[i] == history[i].team1Score || xs[i] == history[i].team2Score)
  {
    seq(|history|, i requires 0 <= i < |history| =>
      if history[i].team1Score >= history[i].team2Score then history[i].team1Score else history[i].team2Score)
  }

  /** The trend chart's vertical scale: nothing is drawn for fewer than two snapshots; otherwise the top score shown, at least 11. */
  function TrendScale(history: seq<ScoreSnapshot>): (m: Option<int>)
    ensures m.None? <==> |history| < 2
    ensures m.Some? ==> m.value >= 11
    ensures m.Some? ==> forall i :: 0 <= i < |history| ==>
      history[i].team1Score <= m.value && history[i].team2Score <= m.value
    ensures m.Some? && m.value != 11 ==>
      exists i :: 0 <= i < |history| && (history[i].team1Score == m.value || history[i].team2Score == m.value)
  {
    if |history| < 2 then None
    else
      var xs := SnapshotMaxima(history);
      var m := MaxWithFloor(xs, 11);
      assert forall i :: 0 <= i < |history| ==> xs[i] <= m;
      Some(m)
  }

  // ---------------------------------------------------------------- counting rally outcomes

  /** `allPlayers`: every player of every team, team by team. */
  function AllPlayers(teams: seq<Team>): (ps: seq<Player>)
    ensures forall t, p :: t in teams && p in t.players ==> p in ps
    ensures forall p :: p in ps ==> exists t :: t in teams && p in t.players
    decreases |teams|
  {
    if teams == [] then []
    else
      var rest := AllPlayers(teams[1..]);
      assert forall t :: t in teams[1..] ==> t in teams;
      teams[0].players + rest
  }

  /** The players of consecutive team lists come one list after the other: order and repeats are kept. */
  lemma {:induction false} AllPlayersAppend(a: seq<Team>, b: seq<Team>)
    ensures AllPlayers(a + b) == AllPlayers(a) + AllPlayers(b)
    decreases |a|
  {
    if a == [] {
      assert a + b == b;
    } else {
      assert (a + b)[1..] == a[1..] + b;
      AllPlayersAppend(a[1..], b);
      calc {
        AllPlayers(a + b);
        a[0].players + AllPlayers(a[1..] + b);
        a[0].players + (AllPlayers(a[1..]) + AllPlayers(b));
        (a[0].players + AllPlayers(a[1..])) + AllPlayers(b);
      }
    }
  }

  /** For the two teams of a match, the list is team 1's players followed by team 2's. */
  lemma AllPlayersOfTwo(t1: Team, t2: Team)
    ensures AllPlayers([t1, t2]) == t1.players + t2.players
  {
    assert [t1, t2][1..] == [t2];
    assert [t2][1..] == [];
    assert AllPlayers([t2]) == t2.players + [];
    assert t2.players + [] == t2.players;
  }

  /** `gameHistory.filter(p => p.playerId === id)`, kept in order. */
  function PlayerHistory(history: seq<StatPoint>, playerId: int): (r: seq<StatPoint>)
    ensures |r| <= |history|
    ensures forall i :: 0 <= i < |r| ==> r[i].playerId == playerId && r[i] in history
    decreases |history|
  {
    if history == [] then []
    else
      var last := history[|history| - 1];
      var rest := PlayerHistory(history[..|history| - 1], playerId);
      assert forall p :: p in history[..|history| - 1] ==> p in history;
      rest + (if last.playerId == playerId then [last] else [])
  }

  /** Filtering distributes over concatenation, so the entries keep their order. */
  lemma {:induction false} PlayerHistoryAppend(a: seq<StatPoint>, b: seq<StatPoint>, playerId: int)
    ensures PlayerHistory(a + b, playerId) == PlayerHistory(a, playerId) + PlayerHistory(b, playerId)
    decreases |b|
  {
    if b != [] {
      var front := b[..|b| - 1];
      assert (a + b)[..|a + b| - 1] == a + front;
      assert (a + b)[|a + b| - 1] == b[|b| - 1];
      PlayerHistoryAppend(a, front, playerId);
    } else {
      assert a + b == a;
    }
  }

  /** The filter keeps every entry of the player, as often as it occurs, and nothing else. */
  lemma {:induction false} PlayerHistoryKeepsAll(history: seq<StatPoint>, playerId: int, e: StatPoint)
    ensures multiset(PlayerHistory(history, playerId))[e] == if e.playerId == playerId then multiset(history)[e] else 0
    decreases |history|
  {
    if history != [] {
      var front := history[..|history| - 1];
      var last := history[|history| - 1];
      assert history == front + [last];
      PlayerHistoryKeepsAll(front, playerId, e);
    }
  }

  /** How many entries record the given outcome. */
  function KindCount(history: seq<StatPoint>, kind: RallyKind): nat
    decreases |history|
  {
    if history == [] then 0
    else KindCount(history[..|history| - 1], kind) + (if history[|history| - 1].kind == kind then 1 else 0)
  }

  /** `gameHistory.filter(p => p.playerId === id && p.type === kind).length`. */
  function PlayerKindCount(history: seq<StatPoint>, playerId: int, kind: RallyKind): (c: nat)
    ensures c <= KindCount(history, kind)
    decreases |history|
  {
    if history == [] then 0
    else
      var last := history[|history| - 1];
      PlayerKindCount(history[..|history| - 1], playerId, kind) + (if last.playerId == playerId && last.kind == kind then 1 else 0)
  }

  /** Every entry is a winner or an error, so the two counts add up to the number of entries. */
  lemma {:induction false} KindsPartition(history: seq<StatPoint>)
    ensures KindCount(history, Winner) + KindCount(history, Error) == |history|
    decreases |history|
  {
    if history != [] {
      KindsPartition(history[..|history| - 1]);
    }
  }

  /** A player's count of an outcome is the count of that outcome in the player's own history. */
  lemma {:induction false} PlayerKindCountFiltered(history: seq<StatPoint>, playerId: int, kind: RallyKind)
    ensures PlayerKindCount(history, playerId, kind) == KindCount(PlayerHistory(history, playerId), kind)
    decreases |history|
  {
    if history != [] {
      var last := history[|history| - 1];
      var front := history[..|history| - 1];
      PlayerKindCountFiltered(front, playerId, kind);
      var r := PlayerHistory(front, playerId);
      assert PlayerKindCount(history, playerId, kind)
        == PlayerKindCount(front, playerId, kind) + (if last.playerId == playerId && last.kind == kind then 1 else 0);
      if last.playerId == playerId {
        assert PlayerHistory(history, playerId) == r + [last];
        KindCountAppend(r, last, kind);
      } else {
        assert PlayerHistory(history, playerId) == r;
      }
    }
  }

  /** Counting over one more entry at the end adds that entry's contribution. */
  lemma KindCountAppend(history: seq<StatPoint>, point: StatPoint, kind: RallyKind)
    ensures KindCount(history + [point], kind) == KindCount(history, kind) + (if point.kind == kind then 1 else 0)
  {
    assert (history + [point])[..|history|] == history;
  }

  /** One row of the summary: a player's name and counts. */
  datatype PlayerStat = PlayerStat(id: int, name: string, winners: nat, errors: nat)

  /** The summary rows, one per player in team order. */
  function Stats(teams: seq<Team>, history: seq<StatPoint>): (stats: seq<PlayerStat>)
    ensures |stats| == |AllPlayers(teams)|
    ensures forall i :: 0 <= i < |stats| ==>
      var p := AllPlayers(teams)[i];
      stats[i] == PlayerStat(p.id, p.name, PlayerKindCount(history, p.id, Winner), PlayerKindCount(history, p.id, Error))
  {
    var ps := AllPlayers(teams);
    seq(|ps|, i requires 0 <= i < |ps| =>
      PlayerStat(ps[i].id, ps[i].name, PlayerKindCount(history, ps[i].id, Winner), PlayerKindCount(history, ps[i].id, Error)))
  }

  /** A player's winners and errors add up to the number of that player's entries. */
  lemma {:induction false} StatAddsUp(history: seq<StatPoint>, playerId: int)
    ensures PlayerKindCount(history, playerId, Winner) + PlayerKindCount(history, playerId, Error)
      == |PlayerHistory(history, playerId)|
  {
    PlayerKindCountFiltered(history, playerId, Winner);
    PlayerKindCountFiltered(history, playerId, Error);
    KindsPartition(PlayerHistory(history, playerId));
  }

  /** Every count of the summary, winners then errors, player by player. */
  function StatCounts(stats: seq<PlayerStat>): (xs: seq<int>)
    ensures |xs| == 2 * |stats|
    ensures forall i :: 0 <= i < |stats| ==> xs[2 * i] == stats[i].winners && xs[2 * i + 1] == stats[i].errors
    decreases |stats|
  {
    if stats == [] then []
    else [stats[0].winners, stats[0].errors] + StatCounts(stats[1..])
  }

  /** The summary's bar scale: at least 1 and at least every count shown. */
  lemma {:induction false} SummaryScaleBounds(stats: seq<PlayerStat>)
    ensures var m := MaxWithFloor(StatCounts(stats), 1);
      && m >= 1
      && (forall i :: 0 <= i < |stats| ==> stats[i].winners <= m && stats[i].errors <= m)
  {
    var xs := StatCounts(stats);
    var m := MaxWithFloor(xs, 1);
    forall i | 0 <= i < |stats| ensures stats[i].winners <= m && stats[i].errors <= m {
      assert xs[2 * i] == stats[i].winners && xs[2 * i + 1] == stats[i].errors;
    }
  }

  // ---------------------------------------------------------------- tallies per reason

  /** One entry of a reason dictionary, in the order `Object.entries` gives: first insertion first. */
  datatype ReasonCount = ReasonCount(reason: string, count: nat)

  predicate DistinctReasons(entries: seq<ReasonCount>) {
    forall i, j :: 0 <= i < j < |entries| ==> entries[i].reason != entries[j].reason
  }

  /** The count a dictionary holds for a reason (0 when absent). */
  function CountFor(entries: seq<ReasonCount>, reason: string): nat
    decreases |entries|
  {
    if entries == [] then 0
    else (if entries[0].reason == reason then entries[0].count else 0) + CountFor(entries[1..], reason)
  }

  /** The sum of all counts of a dictionary. */
  function Total(entries: seq<ReasonCount>): nat
    decreases |entries|
  {
    if entries == [] then 0 else entries[0].count + Total(entries[1..])
  }

  /** `dict[reason] = (dict[reason] || 0) + 1`: the entry goes up by one, or is added at the end with 1. */
  function Bump(entries: seq<ReasonCount>, reason: string): (r: seq<ReasonCount>)
    ensures |entries| <= |r| <= |entries| + 1
    ensures forall i :: 0 <= i < |entries| ==> r[i].reason == entries[i].reason && r[i].count >= entries[i].count
    ensures |r| == |entries| + 1 ==> r[|entries|] == ReasonCount(reason, 1)
    ensures |r| == |entries| + 1 ==> forall i :: 0 <= i < |entries| ==> entries[i].reason != reason
    decreases |entries|
  {
    if entries == [] then [ReasonCount(reason, 1)]
    else if entries[0].reason == reason then [entries[0].(count := entries[0].count + 1)] + entries[1..]
    else
      var rest := Bump(entries[1..], reason);
      assert forall i :: 1 <= i < |entries| ==> entries[i] == entries[1..][i - 1];
      [entries[0]] + rest
  }

  /** A bump adds one to the reason's count and to the total. */
  lemma {:induction false} BumpCounts(entries: seq<ReasonCount>, reason: string, other: string)
    ensures CountFor(Bump(entries, reason), other) == CountFor(entries, other) + (if other == reason then 1 else 0)
    ensures Total(Bump(entries, reason)) == Total(entries) + 1
    decreases |entries|
  {
    if entries != [] {
      var r := Bump(entries, reason);
      if entries[0].reason == reason {
        assert r[1..] == entries[1..];
      } else {
        BumpCounts(entries[1..], reason, other);
        assert r[1..] == Bump(entries[1..], reason);
      }
    }
  }

  /** A bump keeps the reasons of a dictionary distinct. */
  lemma BumpKeepsDistinct(entries: seq<ReasonCount>, reason: string)
    requires DistinctReasons(entries)
    ensures DistinctReasons(Bump(entries, reason))
  {
    var r := Bump(entries, reason);
    forall i, j | 0 <= i < j < |r| ensures r[i].reason != r[j].reason {
      if j < |entries| {
        assert r[i].reason == entries[i].reason && r[j].reason == entries[j].reason;
      } else {
        assert r[j].reason == reason && entries[i].reason != reason;
      }
    }
  }

  /** The dictionary of one outcome kind after the loop over a player's history. */
  function Tally(history: seq<StatPoint>, kind: RallyKind): (r: seq<ReasonCount>)
    ensures |r| <= KindCount(history, kind)
    ensures forall i :: 0 <= i < |r| ==> r[i].count >= 1
    decreases |history|
  {
    if history == [] then []
    else
      var rest := Tally(history[..|history| - 1], kind);
      var last := history[|history| - 1];
      if last.kind == kind then Bump(rest, last.reason) else rest
  }

  /** How many entries of the given kind carry the given reason. */
  function ReasonKindCount(history: seq<StatPoint>, kind: RallyKind, reason: string): nat
    decreases |history|
  {
    if history == [] then 0
    else
      var last := history[|history| - 1];
      ReasonKindCount(history[..|history| - 1], kind, reason) + (if last.kind == kind && last.reason == reason then 1 else 0)
  }

  /**
   * The tally holds each reason once, its count is the number of entries of that kind
   * with that reason, and the counts add up to the number of entries of that kind.
   */
  lemma {:induction false} TallyCounts(history: seq<StatPoint>, kind: RallyKind, reason: string)
    ensures DistinctReasons(Tally(history, kind))
    ensures CountFor(Tally(history, kind), reason) == ReasonKindCount(history, kind, reason)
    ensures Total(Tally(history, kind)) == KindCount(history, kind)
    decreases |history|
  {
    if history != [] {
      var front := history[..|history| - 1];
      var last := history[|history| - 1];
      TallyCounts(front, kind, reason);
      if last.kind == kind {
        BumpCounts(Tally(front, kind), last.reason, reason);
        BumpKeepsDistinct(Tally(front, kind), last.reason);
      }
    }
  }

  /** The winner and error tallies of a player's history add up to its length. */
  lemma TalliesAddUp(history: seq<StatPoint>)
    ensures Total(Tally(history, Winner)) + Total(Tally(history, Error)) == |history|
  {
    TallyCounts(history, Winner, "");
    TallyCounts(history, Error, "");
    KindsPartition(history);
  }

  /** The forEach of the detail view: one pass over the player's history filling the two dictionaries. */
  method TallyByReason(playerHistory: seq<StatPoint>) returns (winners: seq<ReasonCount>, errors: seq<ReasonCount>)
    ensures winners == Tally(playerHistory, Winner) && errors == Tally(playerHistory, Error)
  {
    winners, errors := [], [];
    for i := 0 to |playerHistory|
      invariant winners == Tally(playerHistory[..i], Winner)
      invariant errors == Tally(playerHistory[..i], Error)
    {
      var point := playerHistory[i];
      assert playerHistory[..i + 1][..i] == playerHistory[..i];
      if point.kind == Winner {
        winners := Bump(winners, point.reason);
      } else {
        errors := Bump(errors, point.reason);
      }
    }
    assert playerHistory[..|playerHistory|] == playerHistory;
  }

  // ---------------------------------------------------------------- sorting by count

  predicate SortedByCount(entries: seq<ReasonCount>) {
    forall i, j :: 0 <= i < j < |entries| ==> entries[i].count >= entries[j].count
  }

  /** Puts an entry before the first entry whose count is not larger. */
  function InsertByCount(e: ReasonCount, sorted: seq<ReasonCount>): (r: seq<ReasonCount>)
    requires SortedByCount(sorted)
    ensures SortedByCount(r)
    ensures |r| == |sorted| + 1
    ensures r[0] == e || (|sorted| > 0 && r[0] == sorted[0])
    decreases |sorted|
  {
    if sorted == [] || sorted[0].count <= e.count then
      [e] + sorted
    else
      var rest := InsertByCount(e, sorted[1..]);
      assert rest[0].count <= sorted[0].count;
      [sorted[0]] + rest
  }

  /** An insertion adds exactly the inserted entry: the result is a permutation of the old list and the entry. */
  lemma {:induction false} InsertAddsEntry(e: ReasonCount, sorted: seq<ReasonCount>)
    requires SortedByCount(sorted)
    ensures multiset(InsertByCount(e, sorted)) == multiset(sorted) + multiset{e}
    decreases |sorted|
  {
    if !(sorted == [] || sorted[0].count <= e.count) {
      InsertAddsEntry(e, sorted[1..]);
      assert sorted == [sorted[0]] + sorted[1..];
    }
  }

  /** `entries.sort(([, a], [, b]) => b - a)`: the same entries, largest count first. */
  function SortByCount(entries: seq<ReasonCount>): (r: seq<ReasonCount>)
    ensures SortedByCount(r)
    ensures multiset(r) == multiset(entries)
    decreases |entries|
  {
    if entries == [] then []
    else
      assert entries == [entries[0]] + entries[1..];
      InsertAddsEntry(entries[0], SortByCount(entries[1..]));
      InsertByCount(entries[0], SortByCount(entries[1..]))
  }

  // ---------------------------------------------------------------- the analysis view

  /** The counts of a dictionary, in its order. */
  function Counts(entries: seq<ReasonCount>): (xs: seq<int>)
    ensures |xs| == |entries| && forall i :: 0 <= i < |entries| ==> xs[i] == entries[i].count
  {
    seq(|entries|, i requires 0 <= i < |entries| => entries[i].count)
  }

  /** What the analysis shows: the summary of every player, or the breakdown of one player. */
  datatype AnalysisView =
    | Summary(stats: seq<PlayerStat>, maxStat: int)
    | Detail(player: Player, winners: seq<ReasonCount>, errors: seq<ReasonCount>, maxStat: int, noActions: bool)

  /** `allPlayers.find(p => p.id === id)`. */
  function FindPlayer(players: seq<Player>, id: int): (r: Option<Player>)
    ensures r.Some? ==> r.value in players && r.value.id == id
    ensures r.None? ==> forall p :: p in players ==> p.id != id
    decreases |players|
  {
    if players == [] then None
    else if players[0].id == id then Some(players[0])
    else FindPlayer(players[1..], id)
  }

  /** The player found is the first one with the id. */
  lemma {:induction false} FindPlayerFirst(players: seq<Player>, id: int, i: nat)
    requires i < |players| && players[i].id == id
    requires forall j :: 0 <= j < i ==> players[j].id != id
    ensures FindPlayer(players, id) == Some(players[i])
    decreases i
  {
    if i > 0 {
      FindPlayerFirst(players[1..], id, i - 1);
    }
  }

  /** The breakdown of one player: the two tallies sorted by count, their bar scale, and whether there is anything to show. */
  function DetailView(player: Player, history: seq<StatPoint>): (v: AnalysisView)
    ensures v.Detail? && v.player == player && v.maxStat >= 1
    ensures SortedByCount(v.winners) && SortedByCount(v.errors)
    ensures multiset(v.winners) == multiset(Tally(PlayerHistory(history, player.id), Winner))
    ensures multiset(v.errors) == multiset(Tally(PlayerHistory(history, player.id), Error))
    ensures forall i :: 0 <= i < |v.winners| ==> v.winners[i].count <= v.maxStat
    ensures forall i :: 0 <= i < |v.errors| ==> v.errors[i].count <= v.maxStat
    ensures v.noActions <==> PlayerHistory(history, player.id) == []
  {
    var playerHistory := PlayerHistory(history, player.id);
    var winners := Tally(playerHistory, Winner);
    var errors := Tally(playerHistory, Error);
    var maxStat := MaxWithFloor(Counts(winners) + Counts(errors), 1);
    ConcatBounds(winners, errors, maxStat);
    var sortedWinners := SortByCount(winners);
    var sortedErrors := SortByCount(errors);
    ScaleCoversSorted(winners, sortedWinners, maxStat);
    ScaleCoversSorted(errors, sortedErrors, maxStat);
    Detail(player, sortedWinners, sortedErrors, maxStat, playerHistory == [])
  }

  /** A bound on every count of two dictionaries together bounds every count of each. */
  lemma ConcatBounds(a: seq<ReasonCount>, b: seq<ReasonCount>, m: int)
    requires forall i :: 0 <= i < |a| + |b| ==> (Counts(a) + Counts(b))[i] <= m
    ensures forall i :: 0 <= i < |a| ==> a[i].count <= m
    ensures forall i :: 0 <= i < |b| ==> b[i].count <= m
  {
    var xs := Counts(a) + Counts(b);
    forall i | 0 <= i < |a| ensures a[i].count <= m {
      assert xs[i] == a[i].count;
    }
    forall i | 0 <= i < |b| ensures b[i].count <= m {
      assert xs[|a| + i] == b[i].count;
    }
  }

  /** A bound on every count of a dictionary bounds every count of any reordering of it. */
  lemma ScaleCoversSorted(entries: seq<ReasonCount>, sorted: seq<ReasonCount>, m: int)
    requires multiset(sorted) == multiset(entries)
    requires forall i :: 0 <= i < |entries| ==> entries[i].count <= m
    ensures forall i :: 0 <= i < |sorted| ==> sorted[i].count <= m
  {
    forall i | 0 <= i < |sorted| ensures sorted[i].count <= m {
      assert sorted[i] in multiset(entries);
      var j :| 0 <= j < |entries| && entries[j] == sorted[i];
    }
  }

  /**
   * MatchAnalysis: when the viewed id names a player, that player's breakdown; otherwise
   * the summary rows with their bar scale.
   */
  function MatchAnalysis(teams: seq<Team>, history: seq<StatPoint>, viewing: Option<int>): (v: AnalysisView)
    ensures v.Detail? <==> viewing.Some? && FindPlayer(AllPlayers(teams), viewing.value).Some?
    ensures v.Detail? ==> v == DetailView(FindPlayer(AllPlayers(teams), viewing.value).value, history)
    ensures v.maxStat >= 1
    ensures v.Summary? ==> v.stats == Stats(teams, history)
    ensures v.Summary? ==> forall i :: 0 <= i < |v.stats| ==> v.stats[i].winners <= v.maxStat && v.stats[i].errors <= v.maxStat
  {
    var found := if viewing.Some? then FindPlayer(AllPlayers(teams), viewing.value) else None;
    match found
    case Some(player) => DetailView(player, history)
    case None =>
      var stats := Stats(teams, history);
      SummaryScaleBounds(stats);
      Summary(stats, MaxWithFloor(StatCounts(stats), 1))
  }
}
