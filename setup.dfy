/**
 * The setup screen (components/SetupScreen.tsx): the name fields, the choice of the first
 * server, and the checks and team building of the start button. The setup screen numbers
 * the players 0 and 1 (team 1) and 2 and 3 (team 2) in doubles, 0 and 1 in singles.
 */
module Setup {
  import opened Types
  import opened Rules
  import opened Transitions

  /** Singles exactly for the three singles modes; the setup screen's doubles is "not singles". */
  predicate IsSingles(mode: GameMode) {
    mode == Singles || mode == AdvancedSingles || mode == SimpleSingles
  }

  /** "Not singles" on the setup screen is the same test as the controller's doubles test. */
  lemma SetupDoublesAgrees(mode: GameMode)
    ensures !IsSingles(mode) <==> IsDoubles(mode)
  {
  }

  // ---------------------------------------------------------------- blank names

  /** The characters String.prototype.trim strips: the ECMAScript WhiteSpace and LineTerminator code points. */
  predicate IsTrimmed(c: char) {
    || c == '\U{9}' || c == '\U{A}' || c == '\U{B}' || c == '\U{C}' || c == '\U{D}'
    || c == ' ' || c == '\U{A0}' || c == '\U{1680}' || ('\U{2000}' <= c <= '\U{200A}')
    || c == '\U{2028}' || c == '\U{2029}' || c == '\U{202F}' || c == '\U{205F}'
    || c == '\U{3000}' || c == '\U{FEFF}'
  }

  /** The string with its leading white space removed. */
  function TrimStart(s: string): (r: string)
    ensures |r| <= |s| && r == s[|s| - |r|..]
    ensures r != [] ==> !IsTrimmed(r[0])
    ensures forall i :: 0 <= i < |s| - |r| ==> IsTrimmed(s[i])
    decreases |s|
  {
    if s != [] && IsTrimmed(s[0]) then TrimStart(s[1..]) else s
  }

  /** The string with its trailing white space removed. */
  function TrimEnd(s: string): (r: string)
    ensures |r| <= |s| && r == s[..|r|]
    ensures r != [] ==> !IsTrimmed(r[|r| - 1])
    ensures forall i :: |r| <= i < |s| ==> IsTrimmed(s[i])
    decreases |s|
  {
    if s != [] && IsTrimmed(s[|s| - 1]) then TrimEnd(s[..|s| - 1]) else s
  }

  /** r stands in s from position a on. */
  predicate PieceAt(s: string, r: string, a: int) {
    0 <= a <= |s| - |r| && s[a..a + |r|] == r
  }

  /** String.prototype.trim: a piece of the string with white space at neither end, empty exactly when the string is all white space. */
  function Trim(s: string): (r: string)
    ensures exists a :: PieceAt(s, r, a)
    ensures r != [] ==> !IsTrimmed(r[0]) && !IsTrimmed(r[|r| - 1])
    ensures r == [] <==> forall i :: 0 <= i < |s| ==> IsTrimmed(s[i])
  {
    var front := TrimStart(s);
    var r := TrimEnd(front);
    assert r != [] ==> r[0] == front[0];
    assert PieceAt(s, r, |s| - |front|);
    r
  }

  /** A name is blank for the start button exactly when it is white space only (the empty name included). */
  predicate IsBlank(name: string) {
    Trim(name) == ""
  }

  lemma {:induction false} BlankMeansWhiteSpace(name: string)
    ensures IsBlank(name) <==> forall i :: 0 <= i < |name| ==> IsTrimmed(name[i])
  {
    var front := TrimStart(name);
    assert IsBlank(name) <==> front == [];
  }

  // ---------------------------------------------------------------- choosing the first server

  /** The first server the screen opens with: the second player of team 1 in doubles, player 1 in singles. */
  function InitialFirstServer(doubles: bool): (index: nat)
    ensures index < 2 * TeamSize(doubles)
    ensures doubles ==> index == ServerSlotIndex(1)
  {
    if doubles then 1 else 0
  }

  /** The names after a server choice, and the index the chosen player then has. */
  datatype Choice = Choice(names: seq<string>, server: int)

  /**
   * handleSelectFirstServer: in singles only the index is recorded. In doubles the chosen
   * player's team is put in the order that gives team 1's server index 1 and team 2's
   * server index 2, by swapping the two names of that team when needed.
   */
  function ChooseFirstServer(names: seq<string>, index: int, doubles: bool): (c: Choice)
    requires |names| == 2 * TeamSize(doubles) && 0 <= index < |names|
    ensures |c.names| == |names| && 0 <= c.server < |names|
    ensures c.names[c.server] == names[index]
    ensures !doubles ==> c.names == names && c.server == index
    ensures doubles ==> c.server == (if index < 2 then 1 else 2)
    ensures doubles ==>
      || (c.names[0] == names[0] && c.names[1] == names[1])
      || (index < 2 && c.names[0] == names[1] && c.names[1] == names[0])
    ensures doubles ==>
      || (c.names[2] == names[2] && c.names[3] == names[3])
      || (index >= 2 && c.names[2] == names[3] && c.names[3] == names[2])
  {
    if !doubles then Choice(names, index)
    else if index == 0 then Choice([names[1], names[0], names[2], names[3]], 1)
    else if index == 3 then Choice([names[0], names[1], names[3], names[2]], 2)
    else Choice(names, index)
  }

  /** Two four-element lists whose halves hold the same two elements, each in either order. */
  lemma {:induction false} HalvesPermuted<T>(s: seq<T>, t: seq<T>)
    requires |s| == 4 && |t| == 4
    requires (t[0] == s[0] && t[1] == s[1]) || (t[0] == s[1] && t[1] == s[0])
    requires (t[2] == s[2] && t[3] == s[3]) || (t[2] == s[3] && t[3] == s[2])
    ensures multiset(t[..2]) == multiset(s[..2]) && multiset(t[2..]) == multiset(s[2..])
    ensures multiset(t) == multiset(s)
  {
    assert s == s[..2] + s[2..] && t == t[..2] + t[2..];
    PairPermuted(s[..2], t[..2]);
    PairPermuted(s[2..], t[2..]);
  }

  lemma PairPermuted<T>(s: seq<T>, t: seq<T>)
    requires |s| == 2 && |t| == 2
    requires (t[0] == s[0] && t[1] == s[1]) || (t[0] == s[1] && t[1] == s[0])
    ensures multiset(t) == multiset(s)
  {
    assert s == [s[0]] + [s[1]];
    if t[0] == s[0] && t[1] == s[1] {
      assert t == s;
    } else {
      assert t == [s[1]] + [s[0]];
    }
  }

  /**
   * First-server choice only permutes names within a team: the names of team 1 (indices 0
   * and 1) and of team 2 (indices 2 and 3) stay on their team, and no name is lost or added.
   */
  lemma {:induction false} ChoiceKeepsTeams(names: seq<string>, index: int)
    requires |names| == 4 && 0 <= index < 4
    ensures var c := ChooseFirstServer(names, index, true);
      && multiset(c.names[..2]) == multiset(names[..2])
      && multiset(c.names[2..]) == multiset(names[2..])
      && multiset(c.names) == multiset(names)
  {
    HalvesPermuted(names, ChooseFirstServer(names, index, true).names);
  }

  /** Choosing the player who is already the chosen first server changes nothing. */
  lemma {:induction false} ChooseFirstServerIdempotent(names: seq<string>, index: int, doubles: bool)
    requires |names| == 2 * TeamSize(doubles) && 0 <= index < |names|
    ensures var c := ChooseFirstServer(names, index, doubles);
      ChooseFirstServer(c.names, c.server, doubles) == c
  {
  }

  /** The setup screen's diagonal receiver of a doubles server: 0 and 3 face each other, and so do 1 and 2. */
  function SetupReceiver(server: int): (receiver: int)
    ensures 0 <= receiver < 4
    ensures 0 <= server < 4 ==> receiver == 3 - server
  {
    if server == 0 then 3
    else if server == 1 then 2
    else if server == 2 then 1
    else 0
  }

  /** Taking the diagonal twice gets back to the server, and the receiver is always on the other team. */
  lemma SetupReceiverInvolution(server: int)
    requires 0 <= server < 4
    ensures SetupReceiver(SetupReceiver(server)) == server
    ensures (server < 2) != (SetupReceiver(server) < 2)
  {
  }

  // ---------------------------------------------------------------- starting

  datatype SetupError = NameMissing | ServerMissing

  datatype Result<T, E> = Ok(value: T) | Err(error: E)

  /** What the start button hands to the controller. */
  datatype StartRequest = StartRequest(teams: seq<Team>, firstServerId: int)

  /** Player i of the setup screen gets id i. */
  function Players(names: seq<string>): (ps: seq<Player>)
    ensures |ps| == |names|
    ensures forall i :: 0 <= i < |names| ==> ps[i] == Player(i, names[i])
  {
    seq(|names|, i requires 0 <= i < |names| => Player(i, names[i]))
  }

  /** The two teams the start button builds, both scoreless: [p0] and [p1] in singles, [p0, p1] and [p2, p3] in doubles. */
  function BuildTeams(names: seq<string>, doubles: bool): (teams: seq<Team>)
    requires |names| == 2 * TeamSize(doubles)
    ensures WellFormedTeams(teams, doubles)
    ensures teams[0].score == 0 && teams[1].score == 0
    ensures forall k, j :: 0 <= k < 2 && 0 <= j < TeamSize(doubles) ==>
      teams[k].players[j] == Player(k * TeamSize(doubles) + j, names[k * TeamSize(doubles) + j])
  {
    var ps := Players(names);
    if doubles then
      [Team(1, [ps[0], ps[1]], 0), Team(2, [ps[2], ps[3]], 0)]
    else
      [Team(1, [ps[0]], 0), Team(2, [ps[1]], 0)]
  }

  /**
   * handleStart: a blank name is reported first, then a missing first server; otherwise the
   * built teams go to the controller with the chosen index as the first server's id.
   */
  function StartOutcome(names: seq<string>, firstServer: Option<int>, doubles: bool): (r: Result<StartRequest, SetupError>)
    requires |names| == 2 * TeamSize(doubles)
    requires firstServer.Some? ==> 0 <= firstServer.value < |names|
    ensures r == Err(NameMissing) <==> exists i :: 0 <= i < |names| && IsBlank(names[i])
    ensures r == Err(ServerMissing) <==> (forall i :: 0 <= i < |names| ==> !IsBlank(names[i])) && firstServer.None?
    ensures r.Ok? ==> r.value.firstServerId == firstServer.value && r.value.teams == BuildTeams(names, doubles)
  {
    if exists i :: 0 <= i < |names| && IsBlank(names[i]) then Err(NameMissing)
    else if firstServer.None? then Err(ServerMissing)
    else Ok(StartRequest(BuildTeams(names, doubles), Players(names)[firstServer.value].id))
  }

  /** The setup screen index of a player of a built match: team k's player j has index k * size + j. */
  lemma {:induction false} BuiltPlayerTeam(names: seq<string>, doubles: bool, index: int)
    requires |names| == 2 * TeamSize(doubles) && 0 <= index < |names|
    ensures var teams := BuildTeams(names, doubles);
      var k := index / TeamSize(doubles);
      k < 2 && HasPlayer(teams[k], index) && TeamWithPlayer(teams, index) == Some(teams[k])
  {
    var teams := BuildTeams(names, doubles);
    var n := TeamSize(doubles);
    var k := index / n;
    assert teams[k].players[index - k * n] == Player(index, names[index]);
    assert teams[k].players[index - k * n] in teams[k].players;
    TeamWithPlayerInWellFormed(teams, doubles, index, k);
  }

  /** A successful start hands over teams from which the controller opens a valid match. */
  lemma {:induction false} StartIsReady(names: seq<string>, firstServer: Option<int>, doubles: bool)
    requires |names| == 2 * TeamSize(doubles)
    requires firstServer.Some? ==> 0 <= firstServer.value < |names|
    ensures var r := StartOutcome(names, firstServer, doubles);
      r.Ok? ==> ReadyToOpen(r.value.teams, r.value.firstServerId, doubles)
  {
    var r := StartOutcome(names, firstServer, doubles);
    if r.Ok? {
      BuiltPlayerTeam(names, doubles, firstServer.value);
    }
  }

  /** A doubles team whose designated slot already holds the server is left as it is at the start. */
  lemma OrderForServerInSlot(team: Team, serverId: int)
    requires |team.players| == 2 && team.players[ServerSlotIndex(team.id)].id == serverId
    ensures OrderForServer(team, serverId, true) == team
  {
  }

  /** A team of two players with other ids does not hold the player. */
  lemma PairWithoutPlayer(team: Team, playerId: int)
    requires |team.players| == 2 && team.players[0].id != playerId && team.players[1].id != playerId
    ensures !HasPlayer(team, playerId)
  {
    assert team.players == [team.players[0], team.players[1]];
  }

  /** In built doubles teams, index 1 is team 1's designated slot and index 2 is team 2's. */
  lemma {:induction false} BuiltServerInSlot(names: seq<string>, server: int)
    requires |names| == 4 && (server == 1 || server == 2)
    ensures var teams := BuildTeams(names, true);
      && teams[server - 1].players[ServerSlotIndex(teams[server - 1].id)].id == server
      && OrderTeamsForServer(teams, server, true) == teams
  {
    var teams := BuildTeams(names, true);
    var p0, p1, p2, p3 := Player(0, names[0]), Player(1, names[1]), Player(2, names[2]), Player(3, names[3]);
    assert teams == [Team(1, [p0, p1], 0), Team(2, [p2, p3], 0)];
    var held, other := teams[server - 1], teams[2 - server];
    OrderForServerInSlot(held, server);
    PairWithoutPlayer(other, server);
    var ordered := OrderTeamsForServer(teams, server, true);
    assert ordered[server - 1] == held && ordered[2 - server] == other;
  }

  /**
   * After a first-server choice in doubles, the teams the start button builds already have
   * the server in its designated slot: the controller's start reordering leaves them as they are.
   */
  lemma {:induction false} ChosenServerNeedsNoReorder(names: seq<string>, index: int)
    requires |names| == 4 && 0 <= index < 4
    ensures var c := ChooseFirstServer(names, index, true);
      var teams := BuildTeams(c.names, true);
      && teams[c.server - 1].players[ServerSlotIndex(teams[c.server - 1].id)].id == c.server
      && OrderTeamsForServer(teams, c.server, true) == teams
  {
    var c := ChooseFirstServer(names, index, true);
    BuiltServerInSlot(c.names, c.server);
  }

  /**
   * The setup form: the entered names, the chosen first server (an index into the names)
   * and the error message of the last start attempt.
   */
  class SetupForm {
    const doubles: bool
    var playerNames: seq<string>
    var firstServer: Option<int>
    var error: Option<SetupError>

    ghost predicate Valid()
      reads this
    {
      && |playerNames| == 2 * TeamSize(doubles)
      && (firstServer.Some? ==> 0 <= firstServer.value < |playerNames|)
    }

    /** The screen for a mode: the placeholder names, the initial first server and no error. */
    constructor (mode: GameMode, placeholders: seq<string>)
      requires |placeholders| == 2 * TeamSize(!IsSingles(mode))
      ensures Valid()
      ensures doubles == !IsSingles(mode) && playerNames == placeholders
      ensures firstServer == Some(InitialFirstServer(doubles)) && error == None
    {
      doubles := !IsSingles(mode);
      playerNames := placeholders;
      firstServer := Some(InitialFirstServer(!IsSingles(mode)));
      error := None;
    }

    /** handleNameChange: one field gets the typed text. */
    method ChangeName(index: int, name: string)
      requires Valid() && 0 <= index < |playerNames|
      modifies this`playerNames
      ensures Valid()
      ensures playerNames == old(playerNames)[index := name]
    {
      playerNames := playerNames[index := name];
    }

    /** handleSelectFirstServer: the copied names with at most one pair swapped, and the chosen player's new index. */
    method SelectFirstServer(index: int)
      requires Valid() && 0 <= index < |playerNames|
      modifies this`playerNames, this`firstServer
      ensures Valid()
      ensures var c := ChooseFirstServer(old(playerNames), index, doubles);
        playerNames == c.names && firstServer == Some(c.server)
    {
      if !doubles {
        firstServer := Some(index);
        return;
      }
      var newNames := playerNames;
      var finalServerIndex := index;
      if index < 2 {
        if index != 1 {
          newNames := newNames[0 := newNames[1]][1 := newNames[0]];
          finalServerIndex := 1;
        }
      } else {
        if index != 2 {
          newNames := newNames[2 := newNames[3]][3 := newNames[2]];
          finalServerIndex := 2;
        }
      }
      playerNames := newNames;
      firstServer := Some(finalServerIndex);
    }

    /** handleStart: the error of the outcome is shown, or it is cleared and the request goes to the controller. */
    method Start() returns (request: Option<StartRequest>)
      requires Valid()
      modifies this`error
      ensures var r := StartOutcome(playerNames, firstServer, doubles);
        && (r.Ok? ==> request == Some(r.value) && error == None)
        && (r.Err? ==> request == None && error == Some(r.error))
    {
      match StartOutcome(playerNames, firstServer, doubles)
      case Err(e) =>
        error := Some(e);
        request := None;
      case Ok(r) =>
        error := None;
        request := Some(r);
    }
  }
}
