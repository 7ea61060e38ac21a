# Pickleball scorekeeper — a Dafny model of its core

The scorekeeper is a single-page React app for pickleball matches. The modes are singles or
doubles, each in a normal, advanced or simple variant. This project models its logic in Dafny
and proves properties of the model.

- **Match controller** (`App.tsx`). The App component's state cells become the fields of the
  class `Controller.Match`, and each event handler becomes one method. Each handler is
  specified by a pure transition over the undo-stack snapshot, in modules `Rules` and
  `Transitions`. The model covers:
  - the start-of-game reordering for the first server;
  - points, corrections, faults and side-outs, and the doubles server sequence;
  - rally attribution in advanced modes, and manual server choice;
  - undo, reset, and the font-size clamps;
  - the finished-match log;
  - the decoder for compact share links (`Share`), with a reference encoder and a
    round-trip proof.

  The main invariant is `Match.Valid()`. It holds for the match in progress and for every
  snapshot on the undo stack. It says there are two teams, with ids 1 and 2 in that order.
  Each team has one or two players, depending on the mode, and no player id is used twice.
  Scores are never negative. The server belongs to the serving team. The last score-log entry
  is the current score.
- **Setup screen** (`Setup`). The class `Setup.SetupForm` holds the name fields, the choice of
  the first server, and the start button. Its properties:
  - a server choice only permutes names within a team;
  - the diagonal receiver;
  - JavaScript's `trim` for the blank-name check;
  - a successful start hands the controller teams from which it opens a valid match. In
    doubles, the first server then already stands in the designated slot.
- **Game-over screen** (`Analysis`). It covers:
  - the final score line, which is proved to read back unambiguously;
  - the bounds of the score-trend chart;
  - the advanced-mode analysis: per-player winner and error counts, and per-reason tallies
    with their `forEach` loop (`TallyByReason`);
  - sorting by count, and the bar scale.
- **Game screen** (`Screen`). It covers:
  - the score font class;
  - the font buttons, which are disabled exactly where the controller's clamp has no effect;
  - the serve arrow, which is proved to pair the same positions as the setup screen's
    diagonal;
  - which control panel is shown;
  - the rally-attribution panel (`Screen.AdvancedControls`).
- **Localization** (`Localization`). It covers:
  - the lookup with its `||` fallback chain;
  - `{placeholder}` substitution with JavaScript's string-pattern `replace`. Only the first
    occurrence is replaced, and the `$$`, `$&`, `` $` `` and `$'` patterns are expanded, so a
    replacement value containing `$&` is not inserted verbatim;
  - the stored-locale check at start-up;
  - `setLocale`.

Integers are unbounded; the app's numbers are JavaScript integers far below 2^53.

## Model

| member | source | states |
|---|---|---|
| Rules.ServerSlotIndex | App.tsx:139 | the designated slot is 1 exactly for team 1, else 0 |
| Rules.FindTeamIndexFirst | App.tsx:155 | `findIndex` gives the first passing team, and -1 exactly when none passes |
| Rules.FindTeamFound | App.tsx:274 | `find` gives a team of the list that passes the test, and nothing exactly when none does |
| Rules.PlayerIndex | App.tsx:344 | `players.findIndex` yields -1 or a position holding that id |
| Rules.PlayerIndexFound | App.tsx:344 | a player on the team is found, at or before its position |
| Rules.LookupsInWellFormed | App.tsx:210-214 | in a match in progress, `find` by id, `find` by other id and `?.score \|\| 0` read the team at index id-1, the other team and its score |
| Rules.TeamWithPlayerInWellFormed | App.tsx:274 | the team `find` returns for a player is the one holding it |
| Rules.TeamByIdFound | App.tsx:210-213 | `find` by id returns a team of the list with that id, and nothing exactly when no team has it |
| Rules.TeamOtherThanFound | App.tsx:214 | `find` by another id returns a team of the list without that id, and nothing exactly when every team has it |
| Rules.TeamWithPlayerFound | App.tsx:274-275 | the team found for a player holds it, and there is none exactly when no team does |
| Rules.ScoreOfMeaning | App.tsx:210-211 | `?.score` with its fallback reads the score of the first team with the id, and 0 when there is none |
| Rules.ScoresOfWellFormed | App.tsx:210-212 | in a match in progress the pushed score entry holds team 1's and team 2's scores |
| Rules.Swapped | App.tsx:203 | the pair in the other order, a permutation of the players |
| Rules.OrderForServer | App.tsx:144-153 | a team keeps id, score and players up to order; in doubles the server's team ends with the server in its designated slot; other teams are unchanged |
| Rules.OrderTeamsForServer | App.tsx:144-153 | the reordering applies team by team |
| Rules.AwardPoint | App.tsx:199-208 | the scoring team gains exactly one point and, in doubles, swaps its pair; every other team is unchanged |
| Rules.DeductPoint | App.tsx:224-226 | the team loses one point but never goes below 0; players and other teams are unchanged |
| Rules.ReplacePlayers | App.tsx:347 | only the named team's players are replaced; ids and scores stay |
| Rules.RearrangedMembers | App.tsx:199-208 | a rebuilt team has the same players counted with multiplicity |
| Rules.ReorderKeepsWellFormed | App.tsx:199-208 | rebuilding both teams in place keeps the match well formed and every player on its team |
| Rules.WinnerAfter | App.tsx:213-218 | a winner is declared exactly when the scoring team and an opponent exist and the score reaches the winning score with a two-point lead |
| Rules.AtMostOneWinner | App.tsx:215 | both sides never pass the win test at once |
| Rules.SideOutServer | App.tsx:257-270 | the new server is in the designated slot (doubles) or is the only player (singles) of the next team |
| Rules.PartnerOf | App.tsx:246-247 | the partner is another player of the pair, and none exists only if every player has the server's id |
| Rules.IncreasedLevel | App.tsx:390-392 | one level up, capped at 5 |
| Rules.DecreasedLevel | App.tsx:394-396 | one level down, floored at 1 |
| Rules.AppendIfAbsent | App.tsx:114-129 | the match is appended exactly when its id is not logged yet; the old log is a prefix; ids stay unique |
| Rules.AppendIfAbsentIdempotent | App.tsx:115-116 | logging the same finished match twice is logging it once |
| Text.IntToString | components/GameOverScreen.tsx:215 | a number renders as an optional '-' and digits, with no space |
| Text.IntRoundTrip | components/GameOverScreen.tsx:215 | the decimal rendering of an integer parses back to it |
| Text.IntToStringInjective | components/GameOverScreen.tsx:215 | different scores render differently |
| Share.ModeAt | App.tsx:53-57 | the mode table lookup is defined exactly for indexes 0..5 |
| Share.DecodeTeam | App.tsx:59-63 | id and score are copied; the player at position i gets the name at i and id i (team 1) or i+2 (other teams) |
| Share.KeyAt | App.tsx:69 | an in-range reason index selects that key |
| Share.TeamIdOf | App.tsx:67 | a rally is attributed to the first team holding its player, or 0 |
| Share.DecodeRally | App.tsx:65-70 | kind 0 is a winner, anything else an error; the reason comes from the matching key list |
| Share.DecodeTeams | App.tsx:59-63 | teams are decoded one by one, in order |
| Share.DecodeCompact | App.tsx:50-83 | the decoded match: teams, mode, the winner as the first team with the winner id, the rally log and score log entry by entry |
| Share.TeamRoundTrip | App.tsx:59-63 | encoding then decoding a team with canonical ids gives it back |
| Share.RallyRoundTrip | App.tsx:65-70 | encoding then decoding a well-attributed rally gives it back |
| Share.CompactRoundTrip | App.tsx:50-83 | decoding a compactly encoded canonical match gives the match back |
| Share.DecodeRoundTrip | App.tsx:50-93 | both forms of a shared link to a canonical match open that match: the array form is decoded, the object form taken as it is |
| Transitions.PushKeepsStack | App.tsx:171-181 | pushing a valid snapshot keeps the undo stack valid for the next state |
| Transitions.PopKeepsStack | App.tsx:183-194 | the popped snapshot is a valid match on the same roster, and the rest of the stack stays valid |
| Transitions.Opening | App.tsx:141-169 | no opening when no team holds the first server; otherwise the same roster, that team serving, server number 2 in doubles and 1 in singles, first serve pending, empty rally log, score log [0-0] |
| Transitions.OrderKeepsWellFormed | App.tsx:144-153 | the start-of-game reordering keeps teams well formed, players on their teams and scores |
| Transitions.OpeningTeams | App.tsx:144-159 | the opening teams are the reordered teams |
| Transitions.OpeningScores | App.tsx:159-166 | scoreless teams open at 0-0 |
| Transitions.OpeningServer | App.tsx:155-161 | the serving team is team 1 or 2 and holds the first server |
| Transitions.OpeningValid | App.tsx:141-169 | teams as the setup screen builds them open a valid match |
| Transitions.OpeningSlot | App.tsx:144-153 | in doubles the first server stands in the serving team's designated slot |
| Transitions.AfterPoint | App.tsx:196-219 | a point keeps the roster, server and serve state, and appends exactly one score snapshot holding the new scores |
| Transitions.ScoresInWellFormed | App.tsx:210-212 | the snapshot is team 1's then team 2's score |
| Transitions.AwardKeepsWellFormed | App.tsx:199-208 | a point keeps the teams well formed and every player on its team |
| Transitions.PointKeepsValid | App.tsx:196-212 | a point keeps a match valid |
| Transitions.PointForNoTeam | App.tsx:199-208 | a point for an unknown team id changes no team |
| Transitions.PointScores | App.tsx:199-212 | the scoring team gains exactly one point and swaps its pair in doubles; the other team is untouched |
| Transitions.WinnerInWellFormed | App.tsx:213-218 | the scoring team is declared winner exactly when it reaches the winning score with a two-point lead |
| Transitions.AfterDeduct | App.tsx:221-231 | a correction changes no player order or serve state and appends one score snapshot |
| Transitions.DeductKeepsValid | App.tsx:221-231 | a correction keeps a match valid, takes one point off (not below 0) and leaves the other score |
| Transitions.PartnerInWellFormed | App.tsx:246-247 | in doubles the server always has a partner on the same team |
| Transitions.AfterFault | App.tsx:233-270 | no score or player changes; a side-out (singles, first serve, or server 2) passes the serve to the other team's slot player with server number 1 and the first-serve flag cleared; otherwise the partner serves as server 2 |
| Transitions.DoublesServiceTurn | App.tsx:241-254 | after the first serve, two faults pass the serve: first to the partner, then to the other team |
| Transitions.AfterRally | App.tsx:272-328 | an unknown player changes nothing; otherwise the rally is logged with the player's own team id |
| Transitions.RallyUnfolds | App.tsx:277-327 | a rally the serving side wins is the point path, any other is the fault path |
| Transitions.RallyKeepsValid | App.tsx:272-328 | a recorded rally keeps a match valid and its roster |
| Transitions.RallyWonByServingSide | App.tsx:279-299 | a serving-side winner or a receiving-side error gives the serving team one point and keeps the serve |
| Transitions.RallyLostByServingSide | App.tsx:300-306 | a receiving-side winner or a serving-side error changes no score and rotates the serve as a fault |
| Transitions.AfterSetServer | App.tsx:331-364 | an unknown player changes nothing; otherwise the clicked player serves for their team and the logs stay |
| Transitions.SetServerTeams | App.tsx:337-348 | a manual server choice at most swaps the pair of one team |
| Transitions.SetServerKeepsRoster | App.tsx:331-364 | a manual server choice keeps the roster, the scores and every player on their team |
| Transitions.SetServerHeld | App.tsx:333-356 | after a manual choice the server belongs to the serving team, which is team 1 or 2 |
| Transitions.SetServerKeepsValid | App.tsx:331-364 | a manual server choice keeps a match valid |
| Transitions.SetServerSideOut | App.tsx:337-353 | choosing a player of the other team is a side-out: first-serve flag cleared, server number 1 |
| Transitions.SetServerSlot | App.tsx:341-349 | in doubles the chosen player ends in the new serving team's designated slot |
| Transitions.SetServerSameTeam | App.tsx:354-363 | choosing on the serving team changes no team; in doubles the server number flips exactly when the server changes |
| Transitions.OpeningStep | App.tsx:141-169 | ready teams open a valid match over an empty undo stack, with the doubles server in its slot |
| Transitions.PointStep | App.tsx:196-219 | a point keeps the match and its undo stack valid |
| Transitions.DeductStep | App.tsx:221-231 | a correction keeps the match and its undo stack valid |
| Transitions.FaultStep | App.tsx:233-270 | a fault keeps the match and its undo stack valid |
| Transitions.RallyStep | App.tsx:272-328 | a rally keeps the match and its undo stack valid, with one or two snapshots pushed |
| Transitions.SetServerStep | App.tsx:331-364 | a manual server choice keeps the match and its undo stack valid |
| Transitions.UndoStep | App.tsx:183-194 | undo restores a valid match on the same roster over a valid stack |
| Controller.Match.constructor | App.tsx:24-38 | the initial cells: home screen, no mode, no teams, score log [0-0], empty logs, font level 4 |
| Controller.Match.SelectGameMode | App.tsx:134-137 | the mode is remembered and the setup screen shown |
| Controller.Match.Start | App.tsx:141-169 | a no-op when no team holds the server; otherwise the opening state, no winner, empty undo stack, a new id and the game screen; ready teams give a valid match with the doubles server in slot |
| Controller.Match.SaveToHistory | App.tsx:171-181 | exactly the current snapshot is pushed |
| Controller.Match.Undo | App.tsx:183-194 | an empty stack changes nothing; otherwise the top snapshot is restored and popped; the roster stays and validity is kept |
| Controller.Match.CheckWinner | App.tsx:213-218 | a passing win test sets the winner and the game-over phase; otherwise both stay |
| Controller.Match.ScoreUpdate | App.tsx:196-219 | one snapshot pushed, the point transition, the win test, validity kept |
| Controller.Match.DecrementScore | App.tsx:221-231 | a complete no-op unless the team is serving; otherwise one snapshot and the correction |
| Controller.Match.Fault | App.tsx:233-270 | one snapshot and the fault transition, validity kept |
| Controller.Match.RecordPoint | App.tsx:272-328 | an unknown player changes nothing; a serving-side rally pushes one snapshot and runs the win test; a lost rally pushes two identical snapshots and leaves winner and phase |
| Controller.Match.RallyWon | App.tsx:279-299 | the serving side's rally: one snapshot, the logged point, the win test |
| Controller.Match.RallyLost | App.tsx:300-306 | the receiving side's rally: the logged fault, with two snapshots of the same state |
| Controller.Match.SetServer | App.tsx:331-364 | one snapshot (even for an unknown player) and the manual-server transition |
| Controller.Match.Reset | App.tsx:366-379 | back to home with no mode, no teams, no winner, no id and an empty undo stack |
| Controller.Match.ClearHistory | App.tsx:381-384 | the match log is emptied |
| Controller.Match.ToggleCompactMode | App.tsx:386-388 | compact mode flips |
| Controller.Match.IncreaseScoreFontSize | App.tsx:390-392 | the level goes up by one, capped at 5, and stays in 1..5 |
| Controller.Match.DecreaseScoreFontSize | App.tsx:394-396 | the level goes down by one, floored at 1, and stays in 1..5 |
| Controller.Match.RecordFinishedMatch | App.tsx:113-132 | in the game-over phase with a winner and an id, the finished match is appended unless its id is logged; otherwise the log stays; ids stay unique |
| Controller.Match.LoadShared | App.tsx:49-94 | the decoded match becomes winner, teams, mode and logs, and the shared-result screen shows |
| Controller.Match.ScoreUpdateThenUndo | App.tsx:183-219 | undo right after a point restores the state and the stack; a winner the point produced stays, with the game-over phase, and otherwise winner and phase are unchanged |
| Controller.Match.FaultThenUndo | App.tsx:233-255 | undo right after a fault restores the state and the stack |
| Controller.Match.DecrementScoreThenUndo | App.tsx:183-231 | undo right after a correction of the serving team restores the state and the stack; after any other correction it pops the snapshot from before, or changes nothing when the stack was empty |
| Controller.Match.SetServerThenUndo | App.tsx:331-364 | undo right after a manual server choice, known player or not, restores the state and the stack |
| Controller.Match.RecordPointThenUndo | App.tsx:272-328 | undo after a won rally restores state and stack and keeps any winner the rally produced; after a lost rally it restores the state but leaves one extra copy on the stack; after a rally by an unknown player it pops the snapshot from before, or changes nothing on an empty stack |
| Controller.Match.WonRallyThenUndo | App.tsx:276-322 | undo after a rally won by the serving side restores state and stack; the winner test of the rally stays in effect |
| Controller.Match.LostRallyThenUndo | App.tsx:276-304 | undo after a rally the serving side lost restores the state, winner and phase, and one copy of the state stays on the stack |
| Controller.Match.UnknownPlayerRallyThenUndo | App.tsx:272-276 | a rally by a player no team holds pushes nothing, so the undo pops the snapshot from before, or changes nothing on an empty stack; winner and phase are unchanged |
| Setup.SetupDoublesAgrees | components/SetupScreen.tsx:34-37 | "not singles" is exactly the controller's doubles test |
| Setup.TrimStart | components/SetupScreen.tsx:151 | the leading JavaScript white space is dropped, and the rest starts with non-white space |
| Setup.TrimEnd | components/SetupScreen.tsx:151 | the trailing JavaScript white space is dropped, and the rest ends with non-white space |
| Setup.Trim | components/SetupScreen.tsx:151 | `trim()` gives a piece of the name with white space at neither end, empty exactly when the name is all white space |
| Setup.BlankMeansWhiteSpace | components/SetupScreen.tsx:151 | a name trims to "" exactly when it is all white space |
| Setup.InitialFirstServer | components/SetupScreen.tsx:46 | the preset first server is team 1's designated slot (index 1) in doubles, index 0 in singles |
| Setup.ChooseFirstServer | components/SetupScreen.tsx:118-148 | the chosen player keeps their name at the new index; in doubles the new index is 1 for team 1 and 2 for team 2, and each team's pair is kept or swapped, only on the chosen side; singles changes no name |
| Setup.ChoiceKeepsTeams | components/SetupScreen.tsx:127-144 | a choice permutes names only within each team |
| Setup.ChooseFirstServerIdempotent | components/SetupScreen.tsx:130-143 | choosing the already chosen server changes nothing |
| Setup.SetupReceiver | components/SetupScreen.tsx:74-78 | the diagonal receiver of position i is 3 - i |
| Setup.SetupReceiverInvolution | components/SetupScreen.tsx:70-78 | the diagonal is its own inverse and always crosses to the other team |
| Setup.Players | components/SetupScreen.tsx:162 | player i gets id i and the i-th name |
| Setup.BuildTeams | components/SetupScreen.tsx:163-175 | two scoreless, well-formed teams with team k's player j at setup index k*size+j |
| Setup.StartOutcome | components/SetupScreen.tsx:150-179 | a blank name is reported first, then a missing server; otherwise the built teams and the chosen server's id |
| Setup.BuiltPlayerTeam | components/SetupScreen.tsx:162-178 | setup index i belongs to team i / size, which `find` returns for it |
| Setup.StartIsReady | components/SetupScreen.tsx:150-179 | a successful start hands the controller teams it opens a valid match from |
| Setup.OrderForServerInSlot | App.tsx:146-150 | a doubles team whose slot holds the server is not reordered |
| Setup.BuiltServerInSlot | components/SetupScreen.tsx:129-143 | setup indexes 1 and 2 are the designated slots of teams 1 and 2 |
| Setup.ChosenServerNeedsNoReorder | components/SetupScreen.tsx:118-148 | after a doubles choice the controller's start-of-game reordering changes nothing |
| Setup.SetupForm.constructor | components/SetupScreen.tsx:39-47 | the placeholder names, the preset first server, no error |
| Setup.SetupForm.ChangeName | components/SetupScreen.tsx:112-116 | exactly one name field changes |
| Setup.SetupForm.SelectFirstServer | components/SetupScreen.tsx:118-148 | the in-place swaps give the names and server index of ChooseFirstServer |
| Setup.SetupForm.Start | components/SetupScreen.tsx:150-179 | the start outcome: its error shown, or the request sent and the error cleared |
| Analysis.MaxWithFloor | components/GameOverScreen.tsx:133 | `Math.max(...xs, floor)`: at least the floor and every value, and equal to one of them |
| Analysis.FinalScore | components/GameOverScreen.tsx:214-215 | "winner - loser" when a losing team exists, else the winner's score |
| Analysis.FinalScoreReadsBack | components/GameOverScreen.tsx:215 | equal score lines mean equal winner and loser scores |
| Analysis.FinalScoreShape | components/GameOverScreen.tsx:215 | the line contains a space exactly when a losing team exists |
| Analysis.SnapshotMaxima | components/GameOverScreen.tsx:43 | each snapshot's value is the larger of its two scores |
| Analysis.TrendScale | components/GameOverScreen.tsx:40-45 | no chart under two snapshots; otherwise a scale of at least 11 that bounds every score and is 11 or a score shown |
| Analysis.AllPlayers | components/GameOverScreen.tsx:117 | every player of every team is listed, and only those |
| Analysis.AllPlayersAppend | components/GameOverScreen.tsx:117 | `flatMap` lists team after team: the players of two team lists follow one another, order and repeats kept |
| Analysis.AllPlayersOfTwo | components/GameOverScreen.tsx:117 | for a match, team 1's players followed by team 2's |
| Analysis.PlayerHistory | components/GameOverScreen.tsx:121 | only that player's entries, drawn from the log |
| Analysis.PlayerHistoryAppend | components/GameOverScreen.tsx:121 | `filter` keeps the order: filtering two logs one after the other is filtering each |
| Analysis.PlayerHistoryKeepsAll | components/GameOverScreen.tsx:121 | every entry of the player is kept as often as it occurs, and no other entry |
| Analysis.KindsPartition | components/GameOverScreen.tsx:172-173 | winners and errors add up to the number of entries |
| Analysis.PlayerKindCountFiltered | components/GameOverScreen.tsx:172-173 | the summary count equals the count in the player's own history |
| Analysis.PlayerKindCount | components/GameOverScreen.tsx:172-173 | a player's count of an outcome never exceeds the count of that outcome over the whole log |
| Analysis.Stats | components/GameOverScreen.tsx:171-175 | one row per player, in team order, with their winner and error counts |
| Analysis.StatAddsUp | components/GameOverScreen.tsx:172-173 | a player's winners plus errors is the length of their history |
| Analysis.StatCounts | components/GameOverScreen.tsx:176 | the flattened counts, winners then errors, player by player |
| Analysis.SummaryScaleBounds | components/GameOverScreen.tsx:176 | the summary scale is at least 1 and bounds every count |
| Analysis.Bump | components/GameOverScreen.tsx:126 | the reason's entry keeps its place and no count goes down, or a new entry with 1 goes at the end when the reason was absent |
| Analysis.BumpCounts | components/GameOverScreen.tsx:126-128 | a bump adds one to that reason only, and one to the total |
| Analysis.BumpKeepsDistinct | components/GameOverScreen.tsx:126-128 | a bump never creates a second entry for a reason |
| Analysis.TallyCounts | components/GameOverScreen.tsx:124-130 | each reason appears once, with the number of entries of that kind and reason; the total is the count of that kind |
| Analysis.Tally | components/GameOverScreen.tsx:124-130 | the dictionary has at most one entry per entry of that kind, and every count is at least 1 |
| Analysis.TalliesAddUp | components/GameOverScreen.tsx:124-130 | the two tallies add up to the player's number of entries |
| Analysis.TallyByReason | components/GameOverScreen.tsx:124-130 | the loop fills exactly the two tallies |
| Analysis.InsertByCount | components/GameOverScreen.tsx:131 | inserting into a list sorted by descending count keeps it sorted, one entry longer, headed by the new entry or the old head |
| Analysis.InsertAddsEntry | components/GameOverScreen.tsx:131 | the insertion adds exactly that entry: the multiset of the old list plus the entry |
| Analysis.SortByCount | components/GameOverScreen.tsx:131-132 | sorted by descending count and a permutation of the entries |
| Analysis.Counts | components/GameOverScreen.tsx:133 | the counts of a tally, in order |
| Analysis.FindPlayer | components/GameOverScreen.tsx:118 | a found player is in the list with that id; none when no player has it |
| Analysis.FindPlayerFirst | components/GameOverScreen.tsx:118 | `find` returns the first player with the id |
| Analysis.DetailView | components/GameOverScreen.tsx:120-133 | both tallies sorted and permuted, a scale of at least 1 bounding every bar, and the empty note exactly for an empty history |
| Analysis.MatchAnalysis | components/GameOverScreen.tsx:110-176 | the detail view exactly when the viewed id names a player; otherwise the summary with a scale bounding every count |
| Screen.ModeTests | components/GameScreen.tsx:231-232 | doubles holds for exactly the three doubles modes, simple for exactly the two simple ones |
| Screen.EffectiveLevel | components/GameScreen.tsx:183-184 | at least 1; the level itself, or one less in compact mode |
| Screen.ScoreFontSizeClass | components/GameScreen.tsx:182-194 | the table entry of levels 1..5, the fallback above; always one of the five classes |
| Screen.SizeClassesDistinct | components/GameScreen.tsx:186-192 | the five levels have five different classes |
| Screen.CompactShiftsOneLevel | components/GameScreen.tsx:183-193 | compact mode shows a level as the level below it, and level 1 alike |
| Screen.FontButtonsDisabledAtClamp | components/GameScreen.tsx:348-350 | within 1..5 a font button is disabled exactly when the controller's clamp would leave the level unchanged |
| Screen.Arrow | components/GameScreen.tsx:249-276 | cleared outside doubles or without a server; kept on a failed lookup; otherwise drawn from the server to the other team at the opposite index |
| Screen.ArrowFollowsSetupDiagonal | components/GameScreen.tsx:270-276 | in a doubles match the arrow always shows, goes to the other team and joins positions 2k+i and 3-(2k+i), as the setup diagonal does |
| Screen.ControlsShown | components/GameScreen.tsx:411-423 | the prompt exactly without a serving team found or a server; simple modes get point/fault, advanced ones attribution, others ± buttons carrying the serving team's id |
| Screen.MinusReachesServingTeam | components/GameScreen.tsx:139 | in a match a panel is always shown, and "-" reaches the serving team: one point off (not below 0), the other score unchanged |
| Screen.AdvancedControls.constructor | components/GameScreen.tsx:74 | no player is picked |
| Screen.AdvancedControls.SelectPlayer | components/GameScreen.tsx:92 | the clicked player is picked |
| Screen.AdvancedControls.Record | components/GameScreen.tsx:76-80 | nothing without a pick; otherwise the picked player's outcome is sent; the pick is cleared |
| Localization.LocaleCode | contexts/LocalizationContext.tsx:5 | the codes "en" and "zh-TW" |
| Localization.Lookup | contexts/LocalizationContext.tsx:40 | the current entry, else the English one, else the key; empty entries fall through; never empty for a non-empty key |
| Localization.EnglishLookup | contexts/LocalizationContext.tsx:40 | in English, the English entry or the key |
| Localization.Stringify | contexts/LocalizationContext.tsx:43 | strings as is; numbers in decimal, which parses back |
| Localization.IndexFrom | contexts/LocalizationContext.tsx:43 | the first position at or after the start where the pattern stands, or none |
| Localization.ExpandVerbatim | contexts/LocalizationContext.tsx:43 | a replacement without '$' is inserted verbatim |
| Localization.ExpandPatterns | contexts/LocalizationContext.tsx:43 | `$$`, `$&`, `` $` `` and `$'` expand to "$", the match, the text before and the text after |
| Localization.ReplaceFirst | contexts/LocalizationContext.tsx:43 | without an occurrence the string is unchanged |
| Localization.ReplaceAtFirst | contexts/LocalizationContext.tsx:43 | only the first occurrence is replaced, by the expanded replacement |
| Localization.ReplaceVerbatim | contexts/LocalizationContext.tsx:43 | a dollar-free value replaces the first occurrence verbatim |
| Localization.LaterOccurrenceSurvives | contexts/LocalizationContext.tsx:43 | a later occurrence of the placeholder stays in the result |
| Localization.Placeholder | contexts/LocalizationContext.tsx:43 | the name in braces |
| Localization.ApplyAll | contexts/LocalizationContext.tsx:42-44 | no entries leave the text unchanged |
| Localization.ApplyAllSequential | contexts/LocalizationContext.tsx:42-45 | entries apply one after another to the evolving text |
| Localization.MissingPlaceholderSkipped | contexts/LocalizationContext.tsx:43 | an entry whose placeholder is absent changes nothing |
| Localization.Translation | contexts/LocalizationContext.tsx:39-47 | without replacements, or with none, `t` is the lookup |
| Localization.SingleStringReplacement | contexts/LocalizationContext.tsx:39-47 | one dollar-free string value fills the placeholder's first occurrence verbatim |
| Localization.InitialLocale | contexts/LocalizationContext.tsx:21-28 | zh-TW exactly when "zh-TW" is stored; English otherwise and on a storage failure |
| Localization.LocaleRoundTrip | contexts/LocalizationContext.tsx:21-37 | a stored code reads back as the same locale |
| Localization.StoredLocaleReadBack | contexts/LocalizationContext.tsx:24-32 | what a successful write stores is what the next start selects |
| Localization.LocalizationProvider.constructor | contexts/LocalizationContext.tsx:21-28 | the locale read from storage |
| Localization.LocalizationProvider.SetLocale | contexts/LocalizationContext.tsx:30-37 | the locale always changes; storage is updated only when the write succeeds |
| Localization.LocalizationProvider.Translate | contexts/LocalizationContext.tsx:39-47 | the loop gives the lookup with the replacements applied in order |

## Left out

- Browser I/O is not modelled. This covers `localStorage` reads and writes, `atob`,
  `decodeURIComponent`, `JSON.parse`, `URLSearchParams` and `window.history`. The share
  decoder starts from the already parsed payload. Storage outcomes enter as parameters
  (`StorageRead`, `writeFails`); a parse failure is not modelled.
- Clocks: `new Date()` is a parameter (`now`). The log entry's ISO timestamp is the id string
  itself.
- The image export (`html-to-image`, an external module with timers) is not modelled.
- React mechanics are not modelled:
  - hook dependency lists and batched or functional `setState`;
  - possibly stale closures;
  - re-rendering.

  Each handler is one atomic step on the state object.
- Rendering is not modelled: JSX, class strings other than the score font class, and the SVG
  chart, arrow and bar geometry, all floating point. `Screen.Arrow` stops at the four indices
  and assumes the buttons' DOM refs exist.
- Controller.Match.RecordFinishedMatch: logs nothing when no mode is selected, where the source
  would store `gameMode!` as null. The source cannot reach that case: logging needs the
  game-over phase and a game id, and the id is set only when a game starts from a chosen mode
  (App.tsx:134-158); the mode is null only before that choice, after resetGame
  (App.tsx:366-379), or after a shared link opened on mount (App.tsx:81, 89), when no game id
  exists.
- Share.KeyAt: an out-of-range reason index gives `undefined` in the source; the model uses
  the empty string instead.
- Share.DecodeTeam: the decoder gives team 2's singles player id 2, while the setup screen
  gives id 1. Only canonical matches round-trip, so a singles match shared from the app does
  not keep its player ids.
- Analysis.SortByCount: integer-like object keys are listed first by `Object.entries`; the
  model keeps insertion order. The sort's stability is not proved.
- Localization.Stringify: only integral numbers are modelled. Numbered (`$1`) and named (`$<`)
  replacement patterns have no groups with a string pattern and are copied.
- The following source behaviours are kept as written:
  - the fault path of `handleRecordPoint` pushes two undo snapshots;
  - `handleSetServer` pushes a snapshot before its unknown-player check;
  - no handler checks the game phase, so scoring continues after a win.
- `components/HomeScreen.tsx`, `HistoryScreen.tsx` and `LanguageSwitcher.tsx`, and the
  common buttons, are not part of this model: they only navigate and display. The locale
  tables are data and enter as `Localization.Tables`.
- `useLocalization`'s error outside a provider is React context plumbing and is not modelled.
