# A verified model of the coding-challenge game server

The server lets bots play a turn-based game against each other. Its core is
made of five parts. Each is modelled here in Dafny and proved against a
specification of what it promises:

- **The turn rotation** (`TurnTracker`, `turn_tracker.dfy`). This is the
  ordered list of players and the index of whose turn it is. It is a class
  whose methods update the list and the index in place. The index arithmetic
  is kept exactly as written. That includes the case of removing the player
  at position 0, which sets the index to the old length minus one. The
  lemmas spell out what that does:
  - whoever held the turn, the index ends one past the end of the shorter
    list, so the next advance goes to the player who was at position 2;
  - so when the first player held the turn, the player after them is
    skipped; when position 1 held it, the turn goes on as usual; when
    position 2 held it, that same player moves again; and when a later
    position held it, the turn jumps back to the player at old position 2.
- **The five-in-a-row engine** (`win_scan.dfy`, `gomoku.dfy`,
  `gomoku_scenarios.dfy`).
  - The board is an array of cells, row by row. Placing a stone writes one
    cell in place.
  - The win scan is a pure function. It looks at the four nine-cell windows
    around the new stone, groups equal neighbours, takes the longest group,
    and reports a win when that group has five or more cells.
  - The scan is proved to report a win exactly when the placer now has five
    in a row through the stone. The reported coordinates are the two ends of
    a maximal run.
  - The engine's own test games are replayed on the model, and each is
    proved to end as its test expects.
- **The counter engine** (`dumb.dfy`). A second engine with the same
  contract: a move adds a number to a shared counter. Its two-player flow
  (0, 5, 10, then 13, 13, 16, 17, 19) is proved.
- **The player table and paint bucket** (`player_table.dfy`).
  - The table holds name, colour and channel for each player. Adding a name
    replaces any older entry under it.
  - The bucket hands out the 21 palette colours from the end and then gray.
    It remembers each name's colour for good.
- **The controller** (`controller.dfy`, `controller_loop.dfy`).
  - Every event of the controller loop is a transition function on a value
    `CState`. The events are connect, disconnect, mode change, the settings
    events, a move, and a dropped move.
  - A `Controller` class holds the engine, the table and the settings as
    objects. Its methods are proved to reach exactly the state the transition
    function gives.
  - Properties are proved about the transition functions. The main one is the
    invariant every event keeps: unique names in the table, everyone in the
    rotation registered, and the outstanding turn held by somebody in the
    rotation.
  - Others are the turn-offer retry loop, the pruning of unreachable players
    after a game, scoring, and what an invalid move costs the mover.

Channel delivery is an input. `closed` is the set of channels whose player has
gone away, so a send on them fails. For the mover's error reply, `errOpen`
says whether it can be delivered. A move arrives already parsed:
`Option<PlayerMove>`, which is `None` when the message did not parse. In the
controller, the rule engine is the five-in-a-row engine.

## Model

| member | source | states |
|---|---|---|
| TurnTracking.TurnTracker.constructor | src/turn_tracker.rs:27-33 | the rotation holds the given users unchanged, positioned at index 0 |
| TurnTracking.TurnTracker.AddPlayer | src/turn_tracker.rs:62-66 | the user is appended at the end; the index is unchanged |
| TurnTracking.TurnTracker.AdvancePlayer | src/turn_tracker.rs:68-78 | on an empty rotation: None, nothing changes; otherwise the index becomes (index + 1) mod length and the user there is returned |
| TurnTracking.TurnTracker.RemovePlayer | src/turn_tracker.rs:35-60 | about `IndexAfterRemove`: the name must be present (the search is unwrapped); every user with the name goes, the others keep their order; the index follows the source's arithmetic, keyed on the first position holding the name |
| TurnTracking.TurnTracker.NumPlayers | src/turn_tracker.rs:80-82 | the number of users in the rotation |
| TurnTracking.Without | src/turn_tracker.rs:54-59 | the filtered rotation holds exactly the users not named `name`; it no longer has the name, and shrinks when the name was present |
| TurnTracking.FirstIndexOf | src/turn_tracker.rs:38-42 | the position found is the first one holding the name |
| TurnTracking.NextIndex | src/turn_tracker.rs:74 | the advanced index lies inside the rotation |
| TurnTracking.NextIndexInRange | src/turn_tracker.rs:74 | from inside the rotation, the advance goes one on, or back to 0 from the last position |
| TurnTracking.NextIndexPastEnd | src/turn_tracker.rs:44-78 | from one past the end of a rotation of two or more, the advance lands on position 1 |
| TurnTracking.WithoutUnique | src/turn_tracker.rs:54-59 | with unique names, removal cuts out exactly the one position holding the name |
| TurnTracking.OtherRemovalKeepsCurrent | src/turn_tracker.rs:44-53 | when someone other than the current player leaves, and not from position 0, the index still points at the current player |
| TurnTracking.CurrentRemovalPassesTurnOn | src/turn_tracker.rs:35-78 | when the current player leaves from a position other than 0, the next advance reaches the user who followed them |
| TurnTracking.FirstCurrentRemovalSkipsNext | src/turn_tracker.rs:48-49 | when the current player at position 0 leaves a rotation of three or more, the index equals the new length, and the next advance skips their successor |
| TurnTracking.FirstOtherRemovalRepeatsCurrent | src/turn_tracker.rs:48-49 | when position 0 leaves a rotation of three or more while any later position holds the turn, the index is one past the end of the new list and the next advance goes to the player at old position 2 (the same player again when position 2 held the turn) |
| TurnTracking.FirstTurnOfFreshTracker | src/turn_tracker.rs:27-78 | a fresh rotation's first advance returns nobody, the only user, or the user at position 1 |
| WinScan.AsI32 | src/games/gomoku.rs:68-70 | `as i32` keeps the low 32 bits: the result is congruent to the input modulo 2^32, in the i32 range, and equal to the input below 2^31 |
| WinScan.At | src/games/gomoku.rs:88-94 | `at` answers None exactly when the coordinate is off the board (compared as i32) |
| WinScan.AtIndex | src/games/gomoku.rs:88-102 | an in-bounds coordinate reads the cell at row-major position y * width + x |
| WinScan.Place | src/games/gomoku.rs:61-62 | writing a stone keeps the board's dimensions and well-formedness |
| WinScan.AtAfterPlace | src/games/gomoku.rs:61-62 | after a placement, the placed cell holds the stone and every other coordinate reads as before |
| WinScan.PlaceCells | src/games/gomoku.rs:96-102 | a placement writes exactly the cell at row-major position y * width + x |
| WinScan.CellIndexInjective | src/games/gomoku.rs:88-102 | distinct in-bounds coordinates have distinct row-major positions |
| WinScan.EmptyBoard | src/games/gomoku.rs:138-144 | a new board is well-formed with the given dimensions |
| WinScan.IsFullEveryCoordinate | src/games/gomoku.rs:126-128 | for dimensions below 2^31, the board is full exactly when no in-bounds coordinate reads Empty |
| WinScan.Probes | src/games/gomoku.rs:110-111 | the zipped window is as long as the shorter range, and each entry is the looked-up cell with its coordinate |
| WinScan.Window | src/games/gomoku.rs:72-78 | each of the four windows has nine cells, centred on the stone, in the scan's direction |
| WinScan.GroupByCell | src/games/gomoku.rs:112-115 | group_by cuts the window into non-empty runs of equal cells, and neighbouring runs differ |
| WinScan.LongestGroup | src/games/gomoku.rs:116 | max_by picks a longest group, the last of equally long ones |
| WinScan.GroupIsMaximalRun | src/games/gomoku.rs:112-116 | every group is a maximal run of the window at its own offset |
| WinScan.RunInsideGroup | src/games/gomoku.rs:112-116 | whenever the window holds n equal cells in a row, some group has at least n cells |
| WinScan.RangeContainsWinSpec | src/games/gomoku.rs:104-124 | about `RangeContainsWin`: range_contains_win reports a win exactly when the window holds five equal cells in a row, and then names the two ends of a maximal run of five or more |
| WinScan.RangeWinEnds | src/games/gomoku.rs:117-123 | a reported win names the first and last coordinates of a maximal run of at least five |
| WinScan.RunCoversCentre | src/games/gomoku.rs:72-78 | in a nine-cell window, a run of five always covers the centre |
| WinScan.WindowWinIffLine | src/games/gomoku.rs:68-124 | a window reports a win exactly when the placer owns five in a row through the stone in that direction |
| WinScan.CheckForWinAroundSpec | src/games/gomoku.rs:68-86 | about `CheckForWinAround`: check_for_win_around never reports an invalid move; it reports a win exactly when the placer has five in a row in some direction. The windows are tried vertical, down-right, horizontal, then up-right, and the reported ends are those of a maximal run of five or more in the first window with a line |
| Gomoku.TryPlaceOnSpec | src/games/gomoku.rs:57-66 | about `TryPlaceOn`: a placement is rejected exactly when the cell is off the board or taken, and then the board is untouched; otherwise exactly that cell gains the stone, and it is a win exactly when the placer now has five in a row through it |
| Gomoku.MakeMoveOnSpec | src/games/gomoku.rs:317-332 | about `MakeMoveOn`: invalid when the cell is off the board or taken; otherwise the stone is placed, and the move wins when it completes a line, draws when it does not and the board is full, and is ordinary otherwise (win over draw) |
| Gomoku.EliminateOnSpec | src/games/gomoku.rs:205-215 | about `EliminateOn`: eliminating a player removes every rotation entry with the name and keeps board and winner. The turn goes to a remaining player other than them, with the board, or to nobody exactly when nobody remains. With unique names, when the holder leaves from a position other than 0, their successor gets it |
| Gomoku.InvalidOutcomesEliminate | src/games/gomoku.rs:159-193 | about `PlayerMovesSpec`: a malformed message or an illegal placement removes the mover and hands the turn on, as a disconnection of the current player would; reported as InvalidFormat and InvalidMove respectively |
| Gomoku.OkOutcomePassesTurn | src/games/gomoku.rs:172-179 | about `PlayerMovesSpec`: an ordinary move places the stone, keeps the rotation and hands the turn to the next position, showing the new board |
| Gomoku.WinOutcomeRecordsWinner | src/games/gomoku.rs:327-330 | about `PlayerMovesSpec`: a winning move records the mover and the reported ends as the winner and leaves the rotation untouched |
| Gomoku.DrawOutcomeFillsBoard | src/games/gomoku.rs:320-323 | about `PlayerMovesSpec`: a drawing move fills the last empty cell without a line and leaves the rotation untouched |
| Gomoku.PlayerMovesTurnsStayInRotation | src/games/gomoku.rs:152-195 | about `PlayerMovesSpec`: whatever player_moves reports, the rotation only loses users and any turn handed out goes to a user still in it |
| Gomoku.StartOnSpec | src/games/gomoku.rs:217-226 | about `StartOn`: try_start_game changes only the index. It hands the turn to a rotation member with the board, or to nobody exactly when the rotation is empty. On a fresh rotation of two or more, the turn goes to position 1 |
| Gomoku.Board.constructor | src/games/gomoku.rs:138-144 | a w-by-h board of empty cells |
| Gomoku.Board.TryPlace | src/games/gomoku.rs:57-66 | the in-place write yields the board and result of the placement function |
| Gomoku.Game.constructor | src/games/gomoku.rs:138-148 | an empty board, no winner and a rotation over the given users at index 0 |
| Gomoku.Game.MakeMove | src/games/gomoku.rs:317-332 | the board and outcome of make_move; the winner is recorded only on a win |
| Gomoku.Game.PlayerMoves | src/games/gomoku.rs:152-195 | the engine reaches the state and result of the player_moves function |
| Gomoku.Game.PlayerConnected | src/games/gomoku.rs:197-199 | the user joins the end of the rotation |
| Gomoku.Game.PlayerDisconnected | src/games/gomoku.rs:201-203 | the name must be in the rotation; it is removed as remove_player does |
| Gomoku.Game.CurrentPlayerDisconnected | src/games/gomoku.rs:205-215 | remove, then advance, handing out the next turn with the board |
| Gomoku.Game.TryStartGame | src/games/gomoku.rs:217-226 | advance and hand out that turn, if anyone is in the rotation |
| Gomoku.Game.Reset | src/games/gomoku.rs:228-230 | a new engine of the same dimensions over the given users: empty board, no winner |
| GomokuScenarios.ReplayShows | src/games/gomoku.rs:338-360 | replaying moves onto distinct empty in-bounds cells puts down exactly their stones |
| GomokuScenarios.SpaceOccupied | src/games/gomoku.rs:362-370 | a first stone at (9, 5) is an ordinary move; a second stone there is invalid |
| GomokuScenarios.NormalGame | src/games/gomoku.rs:372-387 | for two distinct players, each of the eight setup moves is ordinary, and player 1's fifth stone at (9, 5) wins with the ends (5, 5) and (9, 5) |
| GomokuScenarios.DifferentPlayersDontStreak | src/games/gomoku.rs:389-406 | for two distinct players, each of the eight setup moves is ordinary although player 1 has seven stones on row 0, because player 2's stone at (4, 0) splits them; player 1's stone at (8, 0) is ordinary and (9, 0) wins |
| GomokuScenarios.FourThenFifth | src/games/gomoku.rs:408-468 | four of a player's stones in a line are each ordinary moves, and then the fifth in the gap wins |
| GomokuScenarios.WinRight | src/games/gomoku.rs:408-420 | the first four stones of row 0 are ordinary moves and the fifth wins |
| GomokuScenarios.WinDown | src/games/gomoku.rs:422-434 | the first four stones of column 0 are ordinary moves and the fifth wins |
| GomokuScenarios.WinDownRight | src/games/gomoku.rs:436-448 | the first four stones of the diagonal are ordinary moves and the fifth wins |
| GomokuScenarios.WinDownLeft | src/games/gomoku.rs:450-468 | the first four stones of the anti-diagonal are ordinary moves and the fifth wins |
| Dumb.WrappingAdd | src/games/dumb.rs:139-141 | the counter grows by the move's amount, wrapping past 2^32 - 1 |
| Dumb.PlayerMovesOutcomes | src/games/dumb.rs:42-69 | about `PlayerMovesSpec` and `EliminateOn`: a well-formed move adds to the counter and hands the turn to the next position with the new counter; a malformed one removes the sender and hands the turn on, or to nobody exactly when nobody is left; never Win, Draw or InvalidMove |
| Dumb.StartOnSpec | src/games/dumb.rs:118-125 | about `StartOn`: on a non-empty rotation, try_start_game always hands out the turn one position on, with the counter unchanged |
| Dumb.Game.constructor | src/games/dumb.rs:32-39 | the counter at 0 and an empty rotation |
| Dumb.Game.WithPlayers | src/games/dumb.rs:132-137 | the counter at 0 and a rotation over the given users |
| Dumb.Game.MakeMove | src/games/dumb.rs:139-141 | the counter grows by the amount, in 32 bits |
| Dumb.Game.PlayerMoves | src/games/dumb.rs:42-69 | the engine reaches the state and result of the player_moves function |
| Dumb.Game.PlayerConnected | src/games/dumb.rs:71-73 | the user joins the end of the rotation |
| Dumb.Game.PlayerDisconnected | src/games/dumb.rs:74-76 | the name must be in the rotation; it is removed |
| Dumb.Game.CurrentPlayerDisconnected | src/games/dumb.rs:107-116 | remove, then advance, handing out the next turn with the counter |
| Dumb.Game.TryStartGame | src/games/dumb.rs:118-125 | the rotation must not be empty (the advance is unwrapped); a turn is always handed out |
| Dumb.Play | src/games/dumb.rs:60-67 | one well-formed move: the counter grows and the turn passes one position on |
| Dumb.TwoPlayerFlow | src/main.rs:117-163 | zeldo is shown 0, 5, 10; after user2 joins the players are shown 13, 13, 16, 17, 19 in alternation |
| Registry.PaletteDistinct | src/player_table.rs:99-121 | the 21 palette colours are pairwise distinct |
| Registry.GetOnSpec | src/player_table.rs:125-135 | about `GetOn`: a name with a colour gets it back and nothing changes; a new name takes the last free colour (gray once none is left), which is recorded and leaves the free list |
| Registry.ColourIsForever | src/player_table.rs:125-135 | once a name has a colour, asking again returns the same colour |
| Registry.NewBucketFair | src/player_table.rs:96-123 | a new bucket hands out palette colours fairly |
| Registry.NewColourIsUnshared | src/player_table.rs:129-133 | while the palette lasts, a new name's colour is nobody else's |
| Registry.GetOnKeepsFair | src/player_table.rs:125-135 | every request keeps the colours handed out distinct while the palette lasts |
| Registry.PaintBucket.constructor | src/player_table.rs:96-123 | the full palette and nobody coloured yet |
| Registry.PaintBucket.Get | src/player_table.rs:125-135 | the in-place pop and insert reach the state and colour of the bucket function |
| Registry.WithoutEntry | src/player_table.rs:52-66 | the table without the name holds exactly the other entries; it has the name no more, and shrinks exactly when it had the name |
| Registry.WithoutEntryUnique | src/player_table.rs:52-66 | removal keeps names unique |
| Registry.FirstEntry | src/player_table.rs:72-74 | the first entry with the name, or None exactly when there is none |
| Registry.AddedIsOnlyEntry | src/player_table.rs:37-50 | after add_new_player exactly one entry has the name, and it is the last one; the other entries keep their order |
| Registry.WithoutEntryKeepsOthers | src/player_table.rs:52-66 | removing one name keeps the entries under every other name |
| Registry.AddedKeepsOthers | src/player_table.rs:37-50 | add_new_player keeps the entries under every other name |
| Registry.PlayerTable.constructor | src/player_table.rs:21-26 | no entries and a full paint bucket |
| Registry.PlayerTable.IsEmpty | src/player_table.rs:33-35 | true exactly when there are no entries |
| Registry.PlayerTable.RemovePlayer | src/player_table.rs:52-66 | the loop leaves exactly the entries with other names, in order, and reports whether the name was there; the bucket is untouched |
| Registry.PlayerTable.AddNewPlayer | src/player_table.rs:37-50 | the older entry under the name is replaced by a last entry with the bucket's colour and the new channel |
| Registry.PlayerTable.Get | src/player_table.rs:72-74 | the first entry with the name (no earlier entry has it), or None exactly when the table has none |
| Registry.ReturningPlayerKeepsColour | src/player_table.rs:37-66 | the first two players get the last two palette colours; a player who leaves and comes back gets their old colour on the new channel |
| Control.TallySpec | src/controller.rs:73-83 | a win adds one to the winner's score, from 0 for a new winner, and leaves every other score alone |
| Control.Roster | src/controller.rs:309 | the table's players as users, in table order |
| Control.YourTurnOn | src/controller.rs:443-485 | in gating mode nothing is offered; a delivery to an open channel returns the token; a closed channel eliminates the holder and offers the replacement; the outcome is a delivered turn to a rotation member on an open channel, or nobody left |
| Control.YourTurnOnRetry | src/controller.rs:470-480 | a failed delivery removes the holder and starts the offer over with the replacement turn, on a shorter rotation |
| Control.FirstMoveOn | src/controller.rs:360-375 | try_start_game, then the offer; no turn is handed out on an empty rotation or in gating mode; outside gating mode with every channel open, the rotation is kept and a turn is handed out exactly when it is not empty |
| Control.Deliveries | src/controller.rs:323-331 | the game-over message goes to every open channel and to no closed one |
| Control.FailedNames | src/controller.rs:323-331 | the names collected are exactly those of entries on closed channels |
| Control.RemoveNames | src/controller.rs:332-334 | the table keeps exactly the entries whose name was not collected |
| Control.SendToAllSpec | src/controller.rs:321-335 | about `SendToAllOn`: send_to_all removes exactly the players whose send failed, keeps names unique and delivers the message to every open channel |
| Control.ReactOn | src/controller.rs:377-441 | the game is over exactly on a win or a draw; otherwise the table and settings stay and any next turn is in the rotation |
| Control.OfferReplacement | src/controller.rs:406-439 | an invalid outcome offers the replacement turn, or reports nobody left; it never ends the game |
| Control.MoveReaction | src/controller.rs:260-275 | the engine's move and the reaction keep the board's size, unique names and the mode |
| Control.AfterReact | src/controller.rs:276-303 | nobody left drops the turn and resets the engine over the table; a next turn becomes the outstanding turn; a game over starts a new game |
| Control.NewGame | src/controller.rs:290-301 | after a game, an empty board with no winner, a rotation of registered players, and no turn in gating mode; outside gating mode with every channel open, the rotation is the table's players and a turn is handed out exactly when the table is not empty |
| Control.InitialInv | src/controller.rs:140-143 | the controller starts with no game running, the default settings, and the invariant |
| Control.ConnectSpec | src/controller.rs:168-190 | about `ConnectOn`: a connection keeps the invariant; the newcomer becomes the one entry under the name; a running game keeps its turn and gains the newcomer; otherwise a game is started |
| Control.DisconnectSpec | src/controller.rs:191-222 | about `DisconnectOn`: a disconnection keeps the invariant. With no game running, nothing changes, not even the table. With a game running, the leaver is out of the rotation afterwards. When the holder leaves, the table is kept and any new turn goes to someone else. When anyone else leaves, their table entry goes and the turn stays |
| Control.DisconnectAsWrittenAgrees | src/controller.rs:191-222 | about `DisconnectOnAsWritten` and `DisconnectOn`: wherever the event as written does not panic, it does what the corrected event does |
| Control.GoToModeSpec | src/controller.rs:223-250 | about `GoToModeOn`: a mode change keeps the invariant and the table; entering gating clears the scores, drops the turn and resets the engine; leaving gating starts a game |
| Control.SettingsSpec | src/controller.rs:251-259 | ResetGame and a dropped move change nothing; each delay event changes only its own delay |
| Control.MoveKeepsInv | src/controller.rs:260-304 | about `MoveOn`: a move keeps the invariant and the mode |
| Control.GameOverAnnouncedAndScored | src/controller.rs:260-304 | about `MoveOn`: a winning or drawing move is announced on every open channel, scores one for a winner, prunes the closed channels, and restarts on an empty board with no winner, the rotation being the remaining players, one of whom is handed the turn unless none is left |
| Control.ReactGameOver | src/controller.rs:395-405 | the reaction to a win or draw is the announcement plus, for a win, the score |
| Control.InvalidMoveLosesTurn | src/controller.rs:260-304 | about `MoveOn`: an invalid move answers the mover with the matching error (a bad placement only when their channel is open) and keeps the table and scores. Any new turn goes to somebody other than the mover, from a rotation without them. With no turn left, the engine is reset over the table. With every channel open and another player in the rotation, a turn is handed out |
| Control.InvalidReaction | src/controller.rs:406-439 | the reaction to an invalid move, before the loop: the reply, the rotation without the mover, never a game over |
| Control.ReactInvalid | src/controller.rs:406-439 | an invalid result is answered with its error and the replacement turn goes to somebody other than the mover |
| Control.EliminatedPlayerDisconnectPanics | src/controller.rs:212-220 | about `DisconnectOnAsWritten`: a sequence of controller events the program produces (b and a connect, two switches to gating and back to practice, the second with a's channel closed, then a's disconnect report) ends in a state where the Disconnect event as written calls the engine for a player it no longer has; the corrected event keeps the turn and drops a from the table |
| Control.TwoConnected | src/controller.rs:168-190 | two players connecting to a fresh controller: the first holds the turn, and the table lists them in connection order on their own channels |
| Control.PracticeRestart | src/controller.rs:223-241 | leaving gating mode with two players at a fresh rotation offers the turn to the second; when the second's channel is closed, the engine drops them and the first takes the turn |
| Control.ConnectFirst | src/controller.rs:168-190 | the first player to connect to a fresh controller takes the turn |
| ControlLoop.ControllerInfo.constructor | src/controller.rs:60-70 | practice mode, no scores, 200 ms and 500 ms delays |
| ControlLoop.ControllerInfo.AddPlayerWin | src/controller.rs:73-83 | the score becomes the tallied score |
| ControlLoop.ControllerInfo.ResetScores | src/controller.rs:85-87 | the score map is emptied, nothing else changes |
| ControlLoop.Controller.constructor | src/controller.rs:140-143 | the controller's initial state |
| ControlLoop.Controller.RefreshUsers | src/controller.rs:309 | the settings show the table's players |
| ControlLoop.Controller.YourTurn | src/controller.rs:443-485 | the retry loop reaches the state and result of the offer function |
| ControlLoop.Controller.FirstMoveNewGame | src/controller.rs:360-375 | reaches the state and result of the first-move function |
| ControlLoop.Controller.SendToAll | src/controller.rs:321-335 | the two loops reach the state of the send_to_all function |
| ControlLoop.Controller.Announce | src/controller.rs:323-331 | the first loop delivers to every open channel and collects the failed names |
| ControlLoop.Controller.RemoveAll | src/controller.rs:332-334 | the second loop removes every collected name |
| ControlLoop.Controller.React | src/controller.rs:377-441 | reaches the state and answer of the reaction function |
| ControlLoop.Controller.OfferReplacement | src/controller.rs:406-439 | reaches the state and answer of the replacement offer |
| ControlLoop.Controller.Connect | src/controller.rs:168-190 | keeps the invariant and reaches the connect transition |
| ControlLoop.Controller.Register | src/controller.rs:172-173 | add_new_player, then player_connected |
| ControlLoop.Controller.StartIfIdle | src/controller.rs:174-189 | a game is started only with no turn outstanding |
| ControlLoop.Controller.Disconnect | src/controller.rs:191-222 | keeps the invariant and reaches the corrected disconnect transition |
| ControlLoop.Controller.HolderLeaves | src/controller.rs:193-212 | current_player_disconnected, then the replacement turn is offered |
| ControlLoop.Controller.OtherLeaves | src/controller.rs:213-220 | the table removal, then the engine removal when the table had the player and the engine still has them (the corrected guard) |
| ControlLoop.Controller.GoToMode | src/controller.rs:223-250 | keeps the invariant and reaches the mode-change transition |
| ControlLoop.Controller.OpenGates | src/controller.rs:227-241 | try_start_game, then the offer |
| ControlLoop.Controller.CloseGates | src/controller.rs:242-249 | scores cleared, engine reset over the table, turn dropped |
| ControlLoop.Controller.ResetGame | src/controller.rs:251-253 | keeps the invariant; nothing changes |
| ControlLoop.Controller.SetTurnDelay | src/controller.rs:254-256 | keeps the invariant; only the turn delay changes |
| ControlLoop.Controller.SetWinDelay | src/controller.rs:257-259 | keeps the invariant; only the win delay changes |
| ControlLoop.Controller.PlayerMoveDropped | src/controller.rs:305-307 | keeps the invariant; nothing changes |
| ControlLoop.Controller.Move | src/controller.rs:260-304 | keeps the invariant and reaches the move transition |
| ControlLoop.Controller.PlayAndReact | src/controller.rs:261-275 | player_moves on the engine, then the reaction |
| ControlLoop.Controller.Settle | src/controller.rs:276-303 | what the loop does with the reaction's answer |

## Left out

- Networking, the line protocol, logins, per-connection tasks and the UI are
  not part of this model. Neither are the `paint`, `as_any` and `eq` methods
  of the engines. These are I/O, drawing with floating point, and runtime
  type inspection.
- The `select!` race, the sleeps, and the oneshot and mpsc channels are not
  modelled. A send's success is the input `closed`. The delays are only
  stored. Moves are handled one at a time, in the order the loop would
  receive them.
- JSON parsing of moves and serialisation of snapshots are not modelled. A
  move arrives as `Option<PlayerMove>`. A snapshot is the board value for
  five-in-a-row and the counter for the counter engine.
- The controller is instantiated with the five-in-a-row engine only. The
  engine is not a parameter, because the model has no trait. The counter
  engine is modelled on its own.
- Control.DisconnectOn: the controller and its methods follow the corrected
  Disconnect event described under Findings. The event as written is
  `Control.DisconnectOnAsWritten`, and its precondition is exactly what
  avoids the panic.
- Control.MoveOn: a malformed move whose error reply cannot be delivered
  makes the source panic, because the send of the format error is unwrapped
  (src/controller.rs:425). The model does not represent the panic; the
  preconditions `mv.None? ==> errOpen` (on `MoveOn`, `MoveReaction` and
  `ControlLoop.Controller.Move`) and `result.InvalidFormat? ==> errOpen` (on
  `ReactOn`, `ReactInvalid` and `ControlLoop.Controller.React`) exclude that
  input instead.
- The counter engine's `reset` is `todo!()`, so it is not modelled. Nothing in
  the model calls it.
- Dumb.WrappingAdd: models release-build wrap-around of `u32` addition. A
  debug build panics on overflow instead.
- Control.TallySpec: scores are unbounded naturals. The source's `u64` never
  overflows in practice.
- The `usize` coordinates of a move are unbounded naturals. Only the `as i32`
  conversion is modelled, via `WinScan.AsI32`.
- PlayerTable::iter is modelled only as the table's sequence, which is all
  the controller uses it for.
- Colours are triples of naturals. `Color::GRAY` is rgb(128, 128, 128), which
  is also the palette's second entry.
- The debug strings built by the tracker and the table are not modelled.
- The controller's UI notifications are not modelled. `connectedUsers` is
  kept as the settings record shows it.

## Findings

| source | as written | input that shows it | evidently intended | confidence | as-written member | corrected member |
|---|---|---|---|---|---|---|
| src/controller.rs:216-218 | When a player who does not hold the turn disconnects and the table still has them, `player_disconnected` is called unconditionally. The engine's `remove_player` unwraps its search, so it panics when the engine has already dropped that player. | A sequence of controller events: b connects, then a, so b holds the turn. The host switches to gating mode and back to practice, and the restart gives the turn to a. The host switches to gating and back once more; before the controller handles that, a's connection fails to read, so their task sends its disconnect report and ends (src/user_connection.rs:134-141). The second restart's turn offer to a fails on the closed channel, so the engine drops a and the turn passes to b, while the table keeps a. Then a's disconnect report arrives. (A player dropped for a bad move ends their task without a disconnect report, src/user_connection.rs:157-161, so that path alone does not reach this call.) | Tell the engine only when it still has the player. The table entry still goes, and the turn stays with b. | not executed | Control.EliminatedPlayerDisconnectPanics | Control.DisconnectSpec |
