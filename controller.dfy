/** The controller's transition logic, on values: one function per event of
    the controller loop, the retry loop that offers a turn, the announcement
    to every player, and what happens after a move. The five-in-a-row engine
    is the rule engine. Channel delivery is an input: `closed` is the set of
    channels whose player has gone away, so a send to them fails. */
module Control {
  import opened Types
  import opened TurnTracking
  import opened WinScan
  import opened Gomoku
  import opened Registry

  datatype GameMode = Practice | Gating | Competition

  datatype GameOverReason = Winner(name: string) | Drawn

  /** What the controller sends down a player's channel. */
  datatype ControllerToPlayerMsg = YourTurnMsg(state: BoardState) | GameOver(reason: GameOverReason)

  /** The settings and scores the controller keeps; delays in milliseconds. */
  datatype Info = Info(
    connectedUsers: seq<User>,
    gameMode: GameMode,
    score: map<string, nat>,
    turnDelay: nat,
    winDelay: nat)

  /** ControllerInfo::default: practice mode, no scores, 200 ms between turns,
      500 ms after a game. */
  const DefaultInfo: Info := Info([], Practice, map[], 200, 500)

  /** The score map after one more win for `name`. */
  function Tally(score: map<string, nat>, name: string): map<string, nat> {
    score[name := if name in score then score[name] + 1 else 1]
  }

  /** A win adds one to the winner's score, starting from 0 for a new winner,
      and leaves every other score as it was. */
  lemma TallySpec(score: map<string, nat>, name: string)
    ensures var s := Tally(score, name);
            && s.Keys == score.Keys + {name}
            && s[name] == (if name in score then score[name] else 0) + 1
            && forall n :: n in score && n != name ==> s[n] == score[n]
  {
  }

  /** What react_to_player_move tells the loop. */
  datatype MovesReturn = ReturnNone | NextTurn(token: TurnToken) | GameIsOver

  /** The controller as a value: the engine, the player table and its paint
      bucket, the settings, the outstanding turn, and the messages delivered so
      far (to players' channels, and the error replies to movers). */
  datatype CState = CState(
    game: GameState,
    table: seq<PlayerInfo>,
    bucket: Bucket,
    info: Info,
    turn: Option<TurnToken>,
    sent: seq<(ChannelId, ControllerToPlayerMsg)>,
    replies: seq<(string, ClientError)>)

  /** The controller before any event, over a fresh `w` by `h` engine. */
  function Initial(w: nat, h: nat): CState {
    CState(GameState(EmptyBoard(w, h), None, [], 0), [], Bucket(Palette, map[]), DefaultInfo, None, [], [])
  }

  /** The table's players as users, in table order. */
  function Roster(table: seq<PlayerInfo>): (users: seq<User>)
    ensures |users| == |table|
    ensures forall i :: 0 <= i < |table| ==> users[i] == User(table[i].name, table[i].color)
    ensures forall u :: u in users ==> HasEntry(table, u.name)
  {
    seq(|table|, i requires 0 <= i < |table| => User(table[i].name, table[i].color))
  }

  /** Everybody in the engine's rotation has an entry in the table. */
  predicate RotationRegistered(cs: CState) {
    forall u :: u in cs.game.rotation ==> HasEntry(cs.table, u.name)
  }

  /** What every state the controller reaches satisfies: a well-formed board,
      unique names in the table, everyone in the rotation registered, and the
      outstanding turn held by somebody in the rotation. */
  ghost predicate Inv(cs: CState) {
    && cs.game.board.Valid()
    && UniqueEntries(cs.table)
    && RotationRegistered(cs)
    && (cs.turn.Some? ==> cs.turn.value.user in cs.game.rotation)
    && (cs.info.gameMode == Gating ==> cs.turn.None?)
  }

  lemma InRotationHasName(rotation: seq<User>, u: User)
    requires u in rotation
    ensures HasName(rotation, u.name) && rotation != []
  {
    var k :| 0 <= k < |rotation| && rotation[k] == u;
  }

  /** reset on the engine value: an empty board of the same size, no winner,
      and a rotation over `users` at position 0. */
  function ResetOn(g: GameState, users: seq<User>): (g': GameState)
    requires g.board.Valid()
    ensures g'.board.Valid() && g'.board.width == g.board.width && g'.board.height == g.board.height
  {
    GameState(EmptyBoard(g.board.width, g.board.height), None, users, 0)
  }

  /** Resets the engine over the table's players. */
  function ResetToRoster(cs: CState): (r: CState)
    requires cs.game.board.Valid()
    ensures r.game.board.Valid() && RotationRegistered(r)
  {
    cs.(game := ResetOn(cs.game, Roster(cs.table)))
  }

  /** The end of every event: the settings show the table's players. */
  function Refresh(cs: CState): CState {
    cs.(info := cs.info.(connectedUsers := Roster(cs.table)))
  }

  // ---------------------------------------------------------------------------
  // your_turn and first_move_new_game

  /** your_turn: offers the turn to the token's holder, through the channel of
      the first table entry with their name. A failed send counts as a
      disconnection of the current player, and the replacement turn is offered
      in its place; the offer ends with the token delivered, or with nobody
      left in the rotation. In gating mode nothing is offered. */
  function YourTurnOn(cs: CState, token: TurnToken, snapshot: BoardState, closed: set<ChannelId>): (r: (CState, Option<TurnToken>))
    requires cs.game.board.Valid() && RotationRegistered(cs) && token.user in cs.game.rotation
    ensures r.0.table == cs.table && r.0.bucket == cs.bucket && r.0.info == cs.info
    ensures r.0.turn == cs.turn && r.0.replies == cs.replies
    ensures r.0.game.board == cs.game.board && r.0.game.winner == cs.game.winner
    ensures forall u :: u in r.0.game.rotation ==> u in cs.game.rotation
    ensures RotationRegistered(r.0)
    ensures cs.info.gameMode == Gating ==> r == (cs, None)
    ensures r.1.None? ==> r.0.sent == cs.sent
    ensures r.1.None? && cs.info.gameMode != Gating ==> r.0.game.rotation == []
    ensures cs.info.gameMode != Gating && FirstEntry(cs.table, token.user.name).value.tx !in closed ==>
              r.1 == Some(token) && r.0.game == cs.game
    ensures r.1.Some? ==>
              && r.1.value.user in r.0.game.rotation
              && HasEntry(cs.table, r.1.value.user.name)
              && FirstEntry(cs.table, r.1.value.user.name).value.tx !in closed
              && |r.0.sent| == |cs.sent| + 1 && r.0.sent[..|cs.sent|] == cs.sent
              && r.0.sent[|cs.sent|].0 == FirstEntry(cs.table, r.1.value.user.name).value.tx
              && r.0.sent[|cs.sent|].1.YourTurnMsg?
    decreases |cs.game.rotation|
  {
    if cs.info.gameMode == Gating then (cs, None)
    else
      var p := FirstEntry(cs.table, token.user.name).value;
      if p.tx !in closed then
        var cs' := cs.(sent := cs.sent + [(p.tx, YourTurnMsg(snapshot))]);
        assert cs'.sent[..|cs.sent|] == cs.sent;
        (cs', Some(token))
      else
        InRotationHasName(cs.game.rotation, token.user);
        EliminateOnSpec(cs.game, token.user.name);
        var (g', next) := EliminateOn(cs.game, token.user.name);
        match next
        case None => (cs.(game := g'), None)
        case Some(pt) => YourTurnOn(cs.(game := g'), pt.token, pt.state, closed)
  }

  /** When the holder's channel is closed outside gating mode, the offer
      starts over after the engine drops the holder. */
  lemma YourTurnOnRetry(cs: CState, token: TurnToken, snapshot: BoardState, closed: set<ChannelId>)
    requires cs.game.board.Valid() && RotationRegistered(cs) && token.user in cs.game.rotation
    requires cs.info.gameMode != Gating && FirstEntry(cs.table, token.user.name).value.tx in closed
    ensures HasName(cs.game.rotation, token.user.name)
    ensures var (g', next) := EliminateOn(cs.game, token.user.name);
            && g'.board == cs.game.board && |g'.rotation| < |cs.game.rotation|
            && RotationRegistered(cs.(game := g'))
            && (next.None? ==> YourTurnOn(cs, token, snapshot, closed) == (cs.(game := g'), None))
            && (next.Some? ==>
                  && next.value.token.user in g'.rotation
                  && YourTurnOn(cs, token, snapshot, closed) == YourTurnOn(cs.(game := g'), next.value.token, next.value.state, closed))
  {
    InRotationHasName(cs.game.rotation, token.user);
    EliminateOnSpec(cs.game, token.user.name);
  }

  /** first_move_new_game: asks the engine for a first turn and offers it. */
  function FirstMoveOn(cs: CState, closed: set<ChannelId>): (r: (CState, Option<TurnToken>))
    requires cs.game.board.Valid() && RotationRegistered(cs)
    ensures r.0.table == cs.table && r.0.info == cs.info && r.0.turn == cs.turn
    ensures r.0.game.board == cs.game.board && r.0.game.winner == cs.game.winner && RotationRegistered(r.0)
    ensures r.0.replies == cs.replies
    ensures r.1.Some? ==> r.1.value.user in r.0.game.rotation
    ensures cs.game.rotation == [] ==> r == (cs, None)
    ensures cs.info.gameMode == Gating ==> r.1.None?
    ensures cs.info.gameMode != Gating && r.1.None? ==> r.0.game.rotation == []
    ensures r.1.None? ==> r.0.sent == cs.sent
    ensures |r.0.sent| >= |cs.sent| && r.0.sent[..|cs.sent|] == cs.sent
    ensures cs.info.gameMode != Gating && (forall p :: p in cs.table ==> p.tx !in closed) ==>
              r.0.game.rotation == cs.game.rotation && (r.1.Some? <==> cs.game.rotation != [])
  {
    StartOnSpec(cs.game);
    var (g', first) := StartOn(cs.game);
    match first
    case None => (cs.(game := g'), None)
    case Some(pt) =>
      assert HasEntry(cs.table, pt.token.user.name);
      assert FirstEntry(cs.table, pt.token.user.name).value in cs.table;
      YourTurnOn(cs.(game := g'), pt.token, pt.state, closed)
  }

  // ---------------------------------------------------------------------------
  // send_to_all

  /** The deliveries of `msg` to every entry whose channel is open, in table order. */
  function Deliveries(table: seq<PlayerInfo>, msg: ControllerToPlayerMsg, closed: set<ChannelId>): (d: seq<(ChannelId, ControllerToPlayerMsg)>)
    ensures forall i :: 0 <= i < |d| ==> d[i].1 == msg && d[i].0 !in closed
    ensures forall p :: p in table && p.tx !in closed ==> (p.tx, msg) in d
  {
    if table == [] then []
    else if table[0].tx in closed then Deliveries(table[1..], msg, closed)
    else [(table[0].tx, msg)] + Deliveries(table[1..], msg, closed)
  }

  /** The names of the entries whose channel is closed, in table order. */
  function FailedNames(table: seq<PlayerInfo>, closed: set<ChannelId>): (names: seq<string>)
    ensures forall n :: n in names <==> exists p :: p in table && p.tx in closed && p.name == n
  {
    if table == [] then []
    else if table[0].tx in closed then [table[0].name] + FailedNames(table[1..], closed)
    else FailedNames(table[1..], closed)
  }

  /** The table after remove_player for each of `names` in turn. */
  function RemoveNames(table: seq<PlayerInfo>, names: seq<string>): (r: seq<PlayerInfo>)
    ensures forall p :: p in r <==> p in table && p.name !in names
    decreases |names|
  {
    if names == [] then table
    else RemoveNames(WithoutEntry(table, names[0]), names[1..])
  }

  lemma {:induction false} RemoveNamesUnique(table: seq<PlayerInfo>, names: seq<string>)
    requires UniqueEntries(table)
    ensures UniqueEntries(RemoveNames(table, names))
    decreases |names|
  {
    if names != [] {
      WithoutEntryUnique(table, names[0]);
      RemoveNamesUnique(WithoutEntry(table, names[0]), names[1..]);
    }
  }

  /** send_to_all: delivers the game-over message to every open channel, then
      removes the players whose channel was closed. */
  function SendToAllOn(cs: CState, reason: GameOverReason, closed: set<ChannelId>): CState {
    cs.(sent := cs.sent + Deliveries(cs.table, GameOver(reason), closed),
        table := RemoveNames(cs.table, FailedNames(cs.table, closed)))
  }

  /** With unique names, send_to_all removes exactly the players whose send
      failed, keeps names unique, and delivers only the game-over message,
      to every open channel and to no closed one. */
  lemma SendToAllSpec(cs: CState, reason: GameOverReason, closed: set<ChannelId>)
    requires UniqueEntries(cs.table)
    ensures var r := SendToAllOn(cs, reason, closed);
            && (forall p :: p in r.table <==> p in cs.table && p.tx !in closed)
            && UniqueEntries(r.table)
            && r.sent[..|cs.sent|] == cs.sent
            && (forall i :: |cs.sent| <= i < |r.sent| ==> r.sent[i].1 == GameOver(reason) && r.sent[i].0 !in closed)
            && (forall p :: p in cs.table && p.tx !in closed ==> (p.tx, GameOver(reason)) in r.sent[|cs.sent|..])
            && r.game == cs.game && r.turn == cs.turn && r.info == cs.info
  {
    var r := SendToAllOn(cs, reason, closed);
    var failed := FailedNames(cs.table, closed);
    forall p | p in r.table
      ensures p.tx !in closed
    {
      assert p in cs.table && p.name !in failed;
    }
    RemoveNamesUnique(cs.table, failed);
    var d := Deliveries(cs.table, GameOver(reason), closed);
    assert r.sent == cs.sent + d;
    assert r.sent[..|cs.sent|] == cs.sent;
    assert r.sent[|cs.sent|..] == d;
  }

  // ---------------------------------------------------------------------------
  // The events

  /** A player connects: the table registers them (replacing an older entry
      under the name), the engine adds them to the rotation, and a game is
      started only when no turn is outstanding. */
  function ConnectOn(cs: CState, name: string, ch: ChannelId, closed: set<ChannelId>): CState
    requires Inv(cs)
  {
    Refresh(StartIfIdle(Registered(cs, name, ch), closed))
  }

  /** The first half of a connection: the table and the engine gain the player. */
  function Registered(cs: CState, name: string, ch: ChannelId): (r: CState)
    requires RotationRegistered(cs)
    ensures RotationRegistered(r) && r.game.board == cs.game.board && r.turn == cs.turn
  {
    var (bucket', color) := GetOn(cs.bucket, name);
    var entry := PlayerInfo(name, color, ch);
    ConnectRegisters(cs, entry);
    cs.(table := AddedEntries(cs.table, entry), bucket := bucket',
        game := cs.game.(rotation := cs.game.rotation + [User(name, color)]))
  }

  /** A game is started only when no turn is outstanding. */
  function StartIfIdle(cs: CState, closed: set<ChannelId>): CState
    requires cs.game.board.Valid() && RotationRegistered(cs)
  {
    if cs.turn.None? then
      var (cs', t) := FirstMoveOn(cs, closed);
      cs'.(turn := t)
    else cs
  }

  lemma ConnectRegisters(cs: CState, entry: PlayerInfo)
    requires RotationRegistered(cs)
    ensures RotationRegistered(cs.(table := AddedEntries(cs.table, entry),
                                   game := cs.game.(rotation := cs.game.rotation + [User(entry.name, entry.color)])))
  {
    var table' := AddedEntries(cs.table, entry);
    AddedIsOnlyEntry(cs.table, entry);
    assert table'[|table'| - 1] == entry;
    forall u | u in cs.game.rotation + [User(entry.name, entry.color)]
      ensures HasEntry(table', u.name)
    {
      if u.name != entry.name {
        assert u in cs.game.rotation;
        var i :| 0 <= i < |cs.table| && cs.table[i].name == u.name;
        assert cs.table[i] in WithoutEntry(cs.table, entry.name);
        var j :| 0 <= j < |WithoutEntry(cs.table, entry.name)| && WithoutEntry(cs.table, entry.name)[j] == cs.table[i];
        assert table'[j] == cs.table[i];
      }
    }
  }

  /** A player disconnects. With no outstanding turn nothing happens. When the
      holder of the turn leaves, the engine drops them and the replacement
      turn, if any, is offered. When someone else leaves, their table entry
      goes, and the engine drops them only when they are still in its
      rotation. */
  function DisconnectOn(cs: CState, name: string, closed: set<ChannelId>): CState
    requires Inv(cs)
  {
    var cs2 :=
      match cs.turn
      case None => cs
      case Some(t) =>
        if t.user.name == name then HolderLeaves(cs, closed)
        else OtherLeaves(cs, name);
    Refresh(cs2)
  }

  /** The holder of the turn leaves: the engine drops them and the replacement
      turn, if any, is offered. */
  function HolderLeaves(cs: CState, closed: set<ChannelId>): CState
    requires Inv(cs) && cs.turn.Some?
  {
    var t := cs.turn.value;
    InRotationHasName(cs.game.rotation, t.user);
    EliminateOnSpec(cs.game, t.user.name);
    var (g', next) := EliminateOn(cs.game, t.user.name);
    match next
    case None => cs.(game := g', turn := None)
    case Some(pt) =>
      var (cs', r) := YourTurnOn(cs.(game := g'), pt.token, pt.state, closed);
      cs'.(turn := r)
  }

  /** Somebody other than the holder leaves: their table entry goes, and the
      engine drops them only when they are still in its rotation. */
  function OtherLeaves(cs: CState, name: string): CState
    requires cs.game.board.Valid()
  {
    var game' := if HasEntry(cs.table, name) && HasName(cs.game.rotation, name) then RemoveOn(cs.game, name) else cs.game;
    cs.(table := WithoutEntry(cs.table, name), game := game')
  }

  /** The condition the Disconnect event as written needs in order not to
      panic: when a player other than the holder leaves and the table still has
      them, the engine's player_disconnected runs, and its unwrapped search
      needs the name in the rotation. */
  predicate DisconnectSafeAsWritten(cs: CState, name: string) {
    cs.turn.Some? && cs.turn.value.user.name != name && HasEntry(cs.table, name) ==>
      HasName(cs.game.rotation, name)
  }

  /** The Disconnect event as written: the engine is told whenever the table
      removal succeeded. */
  function DisconnectOnAsWritten(cs: CState, name: string, closed: set<ChannelId>): CState
    requires Inv(cs) && DisconnectSafeAsWritten(cs, name)
  {
    match cs.turn
    case None => Refresh(cs)
    case Some(t) =>
      if t.user.name == name then DisconnectOn(cs, name, closed)
      else
        var game' := if HasEntry(cs.table, name) then RemoveOn(cs.game, name) else cs.game;
        Refresh(cs.(table := WithoutEntry(cs.table, name), game := game'))
  }

  /** Wherever the Disconnect event as written does not panic, it does what the
      corrected event does. */
  lemma DisconnectAsWrittenAgrees(cs: CState, name: string, closed: set<ChannelId>)
    requires Inv(cs) && DisconnectSafeAsWritten(cs, name)
    ensures DisconnectOnAsWritten(cs, name, closed) == DisconnectOn(cs, name, closed)
  {
  }

  /** The game mode changes. Leaving gating mode starts a game and offers the
      first turn; entering gating mode clears the scores, resets the engine
      over the table's players and drops the outstanding turn. */
  function GoToModeOn(cs: CState, mode: GameMode, closed: set<ChannelId>): CState
    requires Inv(cs)
  {
    var openGates := cs.info.gameMode == Gating && mode != Gating;
    var cs1 := cs.(info := cs.info.(gameMode := mode));
    var cs2 := if openGates then OpenGates(cs1, closed) else cs1;
    var cs3 := if mode == Gating then CloseGates(cs2) else cs2;
    Refresh(cs3)
  }

  /** Leaving gating mode: try_start_game, then the first turn is offered. */
  function OpenGates(cs: CState, closed: set<ChannelId>): CState
    requires cs.game.board.Valid() && RotationRegistered(cs)
  {
    StartOnSpec(cs.game);
    var (g', first) := StartOn(cs.game);
    match first
    case None => cs.(game := g')
    case Some(pt) =>
      var (cs', r) := YourTurnOn(cs.(game := g'), pt.token, pt.state, closed);
      cs'.(turn := r)
  }

  /** Entering gating mode: the scores are cleared, the engine is reset over
      the table's players and the turn is dropped. */
  function CloseGates(cs: CState): CState
    requires cs.game.board.Valid()
  {
    ResetToRoster(cs.(info := cs.info.(score := map[]))).(turn := None)
  }

  /** ResetGame does nothing. */
  function ResetGameOn(cs: CState): CState {
    Refresh(cs)
  }

  /** SetTurnDelay changes the delay before each turn offer. */
  function SetTurnDelayOn(cs: CState, delay: nat): CState {
    Refresh(cs.(info := cs.info.(turnDelay := delay)))
  }

  /** SetWinDelay changes the pause after a game. */
  function SetWinDelayOn(cs: CState, delay: nat): CState {
    Refresh(cs.(info := cs.info.(winDelay := delay)))
  }

  /** A move was dropped unsent: nothing happens until the disconnection arrives. */
  function PlayerMoveDroppedOn(cs: CState): CState {
    Refresh(cs)
  }

  /** The engine's result only hands out turns to users in `rotation`. */
  predicate TurnsInRotation(result: PlayerMoveResult<BoardState>, rotation: seq<User>) {
    && (result.Ok? ==> result.turn.token.user in rotation)
    && (result.IsInvalid() && result.Replacement().Some? ==> result.Replacement().value.token.user in rotation)
  }

  /** react_to_player_move: an ordinary move offers the next turn; a draw or a
      win is announced to everybody (a win also scores for the mover) and ends
      the game; an invalid move is answered with an error to the mover (a
      failure to deliver the InvalidMove error is ignored; the InvalidFormat
      error must be delivered) and the replacement turn, if any, is offered. */
  function ReactOn(cs: CState, who: string, result: PlayerMoveResult<BoardState>, errOpen: bool, closed: set<ChannelId>): (r: (CState, MovesReturn))
    requires cs.game.board.Valid() && RotationRegistered(cs) && TurnsInRotation(result, cs.game.rotation)
    requires result.InvalidFormat? ==> errOpen
    ensures r.0.game.board == cs.game.board && r.0.info.gameMode == cs.info.gameMode && r.0.turn == cs.turn
    ensures r.1.GameIsOver? <==> result.Win? || result.Draw?
    ensures !r.1.GameIsOver? ==> RotationRegistered(r.0) && r.0.table == cs.table && r.0.info == cs.info
    ensures r.1.NextTurn? ==> r.1.token.user in r.0.game.rotation
    ensures cs.info.gameMode == Gating ==> !r.1.NextTurn?
  {
    match result
    case Ok(pt) =>
      var (cs', t) := YourTurnOn(cs, pt.token, pt.state, closed);
      (cs', if t.None? then ReturnNone else NextTurn(t.value))
    case Draw => (SendToAllOn(cs, Drawn, closed), GameIsOver)
    case Win =>
      var cs' := SendToAllOn(cs, Winner(who), closed);
      (cs'.(info := cs'.info.(score := Tally(cs'.info.score, who))), GameIsOver)
    case InvalidMove(next) =>
      var cs' := if errOpen then cs.(replies := cs.replies + [(who, InvalidMoveError)]) else cs;
      OfferReplacement(cs', next, closed)
    case InvalidFormat(next) =>
      var cs' := cs.(replies := cs.replies + [(who, InvalidMessageFormat)]);
      OfferReplacement(cs', next, closed)
  }

  /** The tail of both invalid outcomes: offer the replacement turn, or report
      that nobody is left. */
  function OfferReplacement(cs: CState, next: Option<PlayerTurn<BoardState>>, closed: set<ChannelId>): (r: (CState, MovesReturn))
    requires cs.game.board.Valid() && RotationRegistered(cs)
    requires next.Some? ==> next.value.token.user in cs.game.rotation
    ensures r.0.game.board == cs.game.board && r.0.table == cs.table && r.0.info == cs.info
    ensures r.0.turn == cs.turn && r.0.replies == cs.replies && RotationRegistered(r.0)
    ensures !r.1.GameIsOver?
    ensures r.1.NextTurn? ==> r.1.token.user in r.0.game.rotation
    ensures forall u :: u in r.0.game.rotation ==> u in cs.game.rotation
    ensures cs.info.gameMode == Gating ==> r.1.ReturnNone?
  {
    match next
    case None => (cs, ReturnNone)
    case Some(pt) =>
      var (cs', t) := YourTurnOn(cs, pt.token, pt.state, closed);
      (cs', if t.None? then ReturnNone else NextTurn(t.value))
  }

  /** The holder of the turn moves (`mv` is None when the message did not
      parse; `errOpen` says whether the mover's error reply can be delivered).
      The engine plays the move and the controller reacts: when nobody is left
      to play, the turn is dropped and the engine reset over the table; when
      the game is over, the engine is reset over the table and a new game
      started. */
  function MoveOn(cs: CState, mv: Option<PlayerMove>, errOpen: bool, closed: set<ChannelId>): CState
    requires Inv(cs) && cs.turn.Some? && (mv.None? ==> errOpen)
  {
    var (cs2, ret) := MoveReaction(cs, mv, errOpen, closed);
    Refresh(AfterReact(cs2, ret, closed))
  }

  /** The engine plays the holder's move and the controller reacts to the result. */
  function MoveReaction(cs: CState, mv: Option<PlayerMove>, errOpen: bool, closed: set<ChannelId>): (r: (CState, MovesReturn))
    requires Inv(cs) && cs.turn.Some? && (mv.None? ==> errOpen)
    ensures r.0.game.board.Valid() && r.0.game.board.width == cs.game.board.width
    ensures r.0.game.board.height == cs.game.board.height
    ensures UniqueEntries(r.0.table) && r.0.info.gameMode == cs.info.gameMode
    ensures !r.1.GameIsOver? ==> RotationRegistered(r.0)
    ensures r.1.NextTurn? ==> r.1.token.user in r.0.game.rotation
  {
    var holder := cs.turn.value.user;
    InRotationHasName(cs.game.rotation, holder);
    PlayerMovesTurnsStayInRotation(cs.game, holder, mv);
    var (g1, result) := PlayerMovesSpec(cs.game, holder, mv);
    InvalidOutcomesEliminate(cs.game, holder, mv);
    var cs1 := cs.(game := g1);
    SendToAllSpec(cs1, Winner(holder.name), closed);
    SendToAllSpec(cs1, Drawn, closed);
    ReactOn(cs1, holder.name, result, errOpen, closed)
  }

  /** What the loop does with react_to_player_move's answer: nobody left drops
      the turn and resets the engine over the table, a next turn becomes the
      outstanding turn, and the end of a game starts a new one. */
  function AfterReact(cs: CState, ret: MovesReturn, closed: set<ChannelId>): (r: CState)
    requires cs.game.board.Valid()
    ensures r.table == cs.table && r.info == cs.info && r.replies == cs.replies
    ensures ret.ReturnNone? ==> r.turn.None? && r.game == ResetOn(cs.game, Roster(cs.table)) && r.sent == cs.sent
    ensures ret.NextTurn? ==> r == cs.(turn := Some(ret.token))
    ensures ret.GameIsOver? ==> r == NewGame(cs, closed)
  {
    match ret
    case ReturnNone => ResetToRoster(cs).(turn := None)
    case NextTurn(t) => cs.(turn := Some(t))
    case GameIsOver => NewGame(cs, closed)
  }

  /** After a game: the engine is reset over the table's players and a new
      game is started. Only the engine, the turn and the deliveries change; the
      board is empty and there is no winner. */
  function NewGame(cs: CState, closed: set<ChannelId>): (r: CState)
    requires cs.game.board.Valid()
    ensures r.table == cs.table && r.info == cs.info && r.replies == cs.replies && r.bucket == cs.bucket
    ensures r.game.board == EmptyBoard(cs.game.board.width, cs.game.board.height) && r.game.winner.None?
    ensures RotationRegistered(r) && (r.turn.Some? ==> r.turn.value.user in r.game.rotation)
    ensures cs.info.gameMode == Gating ==> r.turn.None?
    ensures cs.info.gameMode != Gating && (forall p :: p in cs.table ==> p.tx !in closed) ==>
              r.game.rotation == Roster(cs.table) && (r.turn.Some? <==> cs.table != [])
    ensures |r.sent| >= |cs.sent| && r.sent[..|cs.sent|] == cs.sent
  {
    var (cs', t) := FirstMoveOn(ResetToRoster(cs), closed);
    cs'.(turn := t)
  }

  // ---------------------------------------------------------------------------
  // What every event keeps

  lemma NameGoneFromSubRotation(small: seq<User>, big: seq<User>, name: string)
    requires forall u :: u in small ==> u in big
    requires !HasName(big, name)
    ensures !HasName(small, name)
    ensures forall u :: u in small ==> u.name != name
  {
    forall u | u in small
      ensures u.name != name
    {
      if u.name == name {
        assert false;
      }
    }
  }

  /** The controller starts out in a state satisfying the invariant, with no
      game running and the default settings. */
  lemma InitialInv(w: nat, h: nat)
    ensures Inv(Initial(w, h)) && Initial(w, h).turn.None? && Initial(w, h).info == DefaultInfo
    ensures Initial(w, h).game.board == EmptyBoard(w, h)
  {
  }

  /** A connection keeps the invariant. The newcomer becomes the one entry
      under their name, on the new channel, with the colour the paint bucket
      hands them. A running game keeps its turn and gains the newcomer at the
      end of its rotation; with no game running a game is started, and outside
      gating mode somebody holds the turn unless every channel failed. */
  lemma ConnectSpec(cs: CState, name: string, ch: ChannelId, closed: set<ChannelId>)
    requires Inv(cs)
    ensures var r := ConnectOn(cs, name, ch, closed);
            var (bucket', color) := GetOn(cs.bucket, name);
            && Inv(r)
            && FirstEntry(r.table, name) == Some(PlayerInfo(name, color, ch))
            && r.table == AddedEntries(cs.table, PlayerInfo(name, color, ch))
            && r.bucket == bucket'
            && r.info == cs.info.(connectedUsers := Roster(r.table))
            && (cs.turn.Some? ==>
                  && r.turn == cs.turn && r.sent == cs.sent
                  && r.game == cs.game.(rotation := cs.game.rotation + [User(name, color)]))
            && (cs.turn.None? && cs.info.gameMode != Gating ==> r.turn.Some? || r.game.rotation == [])
  {
    var (bucket', color) := GetOn(cs.bucket, name);
    AddedIsOnlyEntry(cs.table, PlayerInfo(name, color, ch));
    ConnectRegisters(cs, PlayerInfo(name, color, ch));
  }

  /** A disconnection keeps the invariant. With no game running nothing
      changes. Otherwise the leaver is out of the engine's rotation; when the
      holder of the turn leaves, the turn passes to somebody else or lapses
      (their table entry stays until their channel is found closed); when
      somebody else leaves, their table entry goes and the turn stays. */
  lemma DisconnectSpec(cs: CState, name: string, closed: set<ChannelId>)
    requires Inv(cs)
    ensures var r := DisconnectOn(cs, name, closed);
            && Inv(r)
            && r.info == cs.info.(connectedUsers := Roster(r.table))
            && (cs.turn.None? ==> r == Refresh(cs))
            && (cs.turn.Some? ==> !HasName(r.game.rotation, name))
            && (cs.turn.Some? && cs.turn.value.user.name == name ==>
                  r.table == cs.table && (r.turn.Some? ==> r.turn.value.user.name != name))
            && (cs.turn.Some? && cs.turn.value.user.name != name ==>
                  r.table == WithoutEntry(cs.table, name) && r.turn == cs.turn && r.sent == cs.sent)
  {
    if cs.turn.Some? {
      var t := cs.turn.value;
      InRotationHasName(cs.game.rotation, t.user);
      if t.user.name == name {
        EliminateOnSpec(cs.game, name);
        var (g', next) := EliminateOn(cs.game, name);
        if next.Some? {
          var (cs', r) := YourTurnOn(cs.(game := g'), next.value.token, next.value.state, closed);
          NameGoneFromSubRotation(cs'.game.rotation, g'.rotation, name);
        }
      } else {
        var table' := WithoutEntry(cs.table, name);
        WithoutEntryUnique(cs.table, name);
        var game' := if HasEntry(cs.table, name) && HasName(cs.game.rotation, name) then RemoveOn(cs.game, name) else cs.game;
        forall u | u in game'.rotation
          ensures HasEntry(table', u.name)
        {
          assert u in cs.game.rotation;
          if u.name == name {
            InRotationHasName(cs.game.rotation, u);
          } else {
            WithoutEntryKeepsOthers(cs.table, name, u.name);
          }
        }
        if !HasName(cs.game.rotation, name) {
          assert game'.rotation == cs.game.rotation;
        }
      }
    }
  }

  /** A change of mode keeps the invariant and the table. Entering gating mode
      clears the scores, drops the turn and resets the engine over the table's
      players; leaving it starts a game, and somebody then holds the turn
      unless nobody is left; any other change only records the new mode. */
  lemma GoToModeSpec(cs: CState, mode: GameMode, closed: set<ChannelId>)
    requires Inv(cs)
    ensures var r := GoToModeOn(cs, mode, closed);
            && Inv(r)
            && r.table == cs.table && r.info.gameMode == mode
            && r.info.connectedUsers == Roster(r.table)
            && (mode == Gating ==>
                  r.info.score == map[] && r.turn.None? && r.game == ResetOn(cs.game, Roster(cs.table)))
            && (mode != Gating ==> r.info.score == cs.info.score)
            && (mode != Gating && cs.info.gameMode == Gating ==> r.turn.Some? || r.game.rotation == [])
            && (mode != Gating && cs.info.gameMode != Gating ==>
                  r == Refresh(cs.(info := cs.info.(gameMode := mode))))
  {
    if cs.info.gameMode == Gating && mode != Gating {
      StartOnSpec(cs.game);
    }
  }

  /** The settings events keep the invariant and change only their own setting. */
  lemma SettingsSpec(cs: CState, delay: nat)
    requires Inv(cs)
    ensures Inv(ResetGameOn(cs)) && Inv(PlayerMoveDroppedOn(cs))
    ensures Inv(SetTurnDelayOn(cs, delay)) && Inv(SetWinDelayOn(cs, delay))
    ensures ResetGameOn(cs) == PlayerMoveDroppedOn(cs) == Refresh(cs)
    ensures SetTurnDelayOn(cs, delay) == Refresh(cs).(info := Refresh(cs).info.(turnDelay := delay))
    ensures SetWinDelayOn(cs, delay) == Refresh(cs).(info := Refresh(cs).info.(winDelay := delay))
  {
  }

  /** A move keeps the invariant and the mode. */
  lemma MoveKeepsInv(cs: CState, mv: Option<PlayerMove>, errOpen: bool, closed: set<ChannelId>)
    requires Inv(cs) && cs.turn.Some? && (mv.None? ==> errOpen)
    ensures var r := MoveOn(cs, mv, errOpen, closed);
            && Inv(r) && r.info.gameMode == cs.info.gameMode
            && r.info.connectedUsers == Roster(r.table)
  {
  }

  /** A move that wins or draws ends the game: the result is announced on every
      open channel (the mover as winner, or a draw), the players whose channel
      is closed leave the table, a win scores one for the mover, nobody is
      answered with an error, and the engine starts over on an empty board. */
  lemma GameOverAnnouncedAndScored(cs: CState, m: PlayerMove, errOpen: bool, closed: set<ChannelId>)
    requires Inv(cs) && cs.turn.Some?
    requires var o := MakeMoveOn(cs.game.board, cs.turn.value.user, m).1; o.MoveWin? || o.MoveDraw?
    ensures var r := MoveOn(cs, Some(m), errOpen, closed);
            var who := cs.turn.value.user.name;
            var won := MakeMoveOn(cs.game.board, cs.turn.value.user, m).1.MoveWin?;
            var reason := if won then Winner(who) else Drawn;
            && r.info.score == (if won then Tally(cs.info.score, who) else cs.info.score)
            && (forall p :: p in r.table <==> p in cs.table && p.tx !in closed)
            && (forall p :: p in cs.table && p.tx !in closed ==> (p.tx, GameOver(reason)) in r.sent)
            && r.replies == cs.replies
            && r.game.winner.None?
            && r.game.board == EmptyBoard(cs.game.board.width, cs.game.board.height)
            && r.game.rotation == Roster(r.table)
            && (r.turn.Some? <==> r.table != [])
  {
    var holder := cs.turn.value.user;
    var who := holder.name;
    InRotationHasName(cs.game.rotation, holder);
    PlayerMovesTurnsStayInRotation(cs.game, holder, Some(m));
    var (g1, result) := PlayerMovesSpec(cs.game, holder, Some(m));
    var won := MakeMoveOn(cs.game.board, holder, m).1.MoveWin?;
    assert result.Win? <==> won;
    var reason := if won then Winner(who) else Drawn;
    var cs1 := cs.(game := g1);
    SendToAllSpec(cs1, reason, closed);
    var (cs2, ret) := MoveReaction(cs, Some(m), errOpen, closed);
    assert (cs2, ret) == ReactOn(cs1, who, result, errOpen, closed);
    ReactGameOver(cs1, who, result, errOpen, closed);
    assert ret.GameIsOver?;
    var r := MoveOn(cs, Some(m), errOpen, closed);
    assert r == Refresh(AfterReact(cs2, ret, closed));
    PrefixKeepsMembers(cs2.sent, r.sent, |cs.sent|);
  }

  /** The reaction to a win or a draw: the announcement, the score, and the
      end of the game. */
  lemma ReactGameOver(cs: CState, who: string, result: PlayerMoveResult<BoardState>, errOpen: bool, closed: set<ChannelId>)
    requires cs.game.board.Valid() && RotationRegistered(cs) && TurnsInRotation(result, cs.game.rotation)
    requires result.Win? || result.Draw?
    ensures var (cs2, ret) := ReactOn(cs, who, result, errOpen, closed);
            var announced := SendToAllOn(cs, if result.Win? then Winner(who) else Drawn, closed);
            && ret.GameIsOver?
            && cs2 == announced.(info := announced.info.(score := if result.Win? then Tally(cs.info.score, who) else cs.info.score))
  {
  }

  lemma PrefixKeepsMembers<T>(s: seq<T>, t: seq<T>, from: nat)
    requires from <= |s| <= |t| && t[..|s|] == s
    ensures forall x :: x in s[from..] ==> x in t
  {
    forall x | x in s[from..]
      ensures x in t
    {
      var k :| from <= k < |s| && s[k] == x;
      assert t[k] == x;
    }
  }

  /** A malformed message, or a move onto a taken or off-board cell, costs the
      mover the turn: the mover is answered with the matching error (the
      invalid-move error only when its reply channel is open), the table stays,
      and the turn passes to somebody else; when nobody is left to take it,
      the engine is reset over the table. */
  lemma InvalidMoveLosesTurn(cs: CState, mv: Option<PlayerMove>, errOpen: bool, closed: set<ChannelId>)
    requires Inv(cs) && cs.turn.Some? && (mv.None? ==> errOpen)
    requires mv.None? || MakeMoveOn(cs.game.board, cs.turn.value.user, mv.value).1.MoveInvalid?
    ensures var r := MoveOn(cs, mv, errOpen, closed);
            var who := cs.turn.value.user.name;
            && r.replies == cs.replies + (if mv.None? then [(who, InvalidMessageFormat)]
                                         else if errOpen then [(who, InvalidMoveError)] else [])
            && r.table == cs.table && r.info.score == cs.info.score
            && (r.turn.Some? ==> r.turn.value.user.name != who)
            && (r.turn.Some? ==> forall u :: u in r.game.rotation ==> u in cs.game.rotation && u.name != who)
            && (r.turn.None? ==> r.game == ResetOn(cs.game, Roster(cs.table)))
            && (closed == {} && (exists u :: u in cs.game.rotation && u.name != who) ==> r.turn.Some?)
  {
    var holder := cs.turn.value.user;
    InRotationHasName(cs.game.rotation, holder);
    PlayerMovesTurnsStayInRotation(cs.game, holder, mv);
    InvalidReaction(cs, mv, errOpen, closed);
  }

  /** The reaction to an invalid move, before the loop takes over. */
  lemma InvalidReaction(cs: CState, mv: Option<PlayerMove>, errOpen: bool, closed: set<ChannelId>)
    requires Inv(cs) && cs.turn.Some? && (mv.None? ==> errOpen)
    requires mv.None? || MakeMoveOn(cs.game.board, cs.turn.value.user, mv.value).1.MoveInvalid?
    ensures var holder := cs.turn.value.user;
            var (cs2, ret) := MoveReaction(cs, mv, errOpen, closed);
            && cs2.replies == cs.replies + (if mv.None? then [(holder.name, InvalidMessageFormat)]
                                           else if errOpen then [(holder.name, InvalidMoveError)] else [])
            && cs2.game.board == cs.game.board && cs2.table == cs.table && cs2.info == cs.info
            && (ret.NextTurn? ==> ret.token.user.name != holder.name)
            && (forall u :: u in cs2.game.rotation ==> u in cs.game.rotation && u.name != holder.name)
            && (closed == {} && (exists u :: u in cs.game.rotation && u.name != holder.name) ==> ret.NextTurn?)
            && !ret.GameIsOver?
  {
    var holder := cs.turn.value.user;
    InRotationHasName(cs.game.rotation, holder);
    InvalidOutcomesEliminate(cs.game, holder, mv);
    EliminateOnSpec(cs.game, holder.name);
    PlayerMovesTurnsStayInRotation(cs.game, holder, mv);
    var (g1, result) := PlayerMovesSpec(cs.game, holder, mv);
    assert (g1, result.Replacement()) == EliminateOn(cs.game, holder.name);
    if closed == {} && exists u :: u in cs.game.rotation && u.name != holder.name {
      var u :| u in cs.game.rotation && u.name != holder.name;
      assert u in g1.rotation;
    }
    ReactInvalid(cs.(game := g1), holder.name, result, errOpen, closed);
    assert MoveReaction(cs, mv, errOpen, closed) == ReactOn(cs.(game := g1), holder.name, result, errOpen, closed);
  }

  /** The reaction to an invalid result: the matching error reply, the
      replacement turn offered to somebody other than the mover, and never
      the end of a game. */
  lemma ReactInvalid(cs: CState, who: string, result: PlayerMoveResult<BoardState>, errOpen: bool, closed: set<ChannelId>)
    requires cs.game.board.Valid() && RotationRegistered(cs) && TurnsInRotation(result, cs.game.rotation)
    requires result.IsInvalid() && (result.InvalidFormat? ==> errOpen)
    requires !HasName(cs.game.rotation, who)
    ensures var (cs2, ret) := ReactOn(cs, who, result, errOpen, closed);
            && cs2.replies == cs.replies + (if result.InvalidFormat? then [(who, InvalidMessageFormat)]
                                           else if errOpen then [(who, InvalidMoveError)] else [])
            && cs2.game.board == cs.game.board && cs2.table == cs.table && cs2.info == cs.info
            && (ret.NextTurn? ==> ret.token.user.name != who)
            && (forall u :: u in cs2.game.rotation ==> u in cs.game.rotation && u.name != who)
            && (closed == {} && cs.info.gameMode != Gating && result.Replacement().Some? ==> ret.NextTurn?)
            && !ret.GameIsOver?
  {
    var reply := if result.InvalidFormat? then [(who, InvalidMessageFormat)]
                 else if errOpen then [(who, InvalidMoveError)] else [];
    if result.InvalidMove? && !errOpen {
      assert cs.(replies := cs.replies + reply) == cs;
    }
    var (cs2, ret) := OfferReplacement(cs.(replies := cs.replies + reply), result.Replacement(), closed);
    assert ReactOn(cs, who, result, errOpen, closed) == (cs2, ret);
    NameGoneFromSubRotation(cs2.game.rotation, cs.game.rotation, who);
  }

  // ---------------------------------------------------------------------------
  // The Disconnect event as written

  /** The Disconnect event as written can panic, on a sequence of events the
      program produces. b connects, then a, so b holds the turn and the table
      lists b before a. The host switches to gating mode and back to practice;
      the restart offers the turn to position 1, which is a. While a holds it,
      their connection fails to read, so their task reports the disconnect and
      ends (src/user_connection.rs:134-141); a second switch to gating and back
      was queued before that report. The second restart offers the turn to a
      again, the send fails on their closed channel, and the engine drops a and
      hands the turn to b, while the table keeps a. When a's report arrives,
      the table removal succeeds and the engine is told to remove a player it
      no longer has, which it does with an unwrapped search. The corrected
      event leaves the engine alone, keeps the turn with b and drops a from
      the table. */
  lemma EliminatedPlayerDisconnectPanics(w: nat, h: nat, a: string, b: string, ca: ChannelId, cb: ChannelId)
    returns (cs2: CState, cs4: CState, cs6: CState)
    requires a != b && ca != cb
    ensures var cs1 := ConnectOn(Initial(w, h), b, cb, {});
            && Inv(Initial(w, h)) && Inv(cs1)
            && cs2 == ConnectOn(cs1, a, ca, {}) && Inv(cs2)
            && cs2.turn.Some? && cs2.turn.value.user.name == b
    ensures var cs3 := GoToModeOn(cs2, Gating, {});
            && Inv(cs3) && cs4 == GoToModeOn(cs3, Practice, {}) && Inv(cs4)
            && cs4.turn.Some? && cs4.turn.value.user.name == a
    ensures var cs5 := GoToModeOn(cs4, Gating, {});
            && Inv(cs5) && cs6 == GoToModeOn(cs5, Practice, {ca}) && Inv(cs6)
            && cs6.turn.Some? && cs6.turn.value.user.name == b
    ensures HasEntry(cs6.table, a) && !HasName(cs6.game.rotation, a)
    ensures !DisconnectSafeAsWritten(cs6, a)
    ensures var cs7 := DisconnectOn(cs6, a, {});
            && cs7.turn == cs6.turn && !HasEntry(cs7.table, a) && Inv(cs7)
  {
    cs2 := TwoConnected(w, h, a, b, ca, cb);
    var cs3 := GoToModeOn(cs2, Gating, {});
    GoToModeSpec(cs2, Gating, {});
    cs4 := GoToModeOn(cs3, Practice, {});
    GoToModeSpec(cs3, Practice, {});
    PracticeRestart(cs3, {});
    var cs5 := GoToModeOn(cs4, Gating, {});
    GoToModeSpec(cs4, Gating, {});
    cs6 := GoToModeOn(cs5, Practice, {ca});
    GoToModeSpec(cs5, Practice, {ca});
    PracticeRestart(cs5, {ca});
    assert cs6.game.rotation[0].name == b && |cs6.game.rotation| == 1;
    DisconnectSpec(cs6, a, {});
  }

  /** b and then a connect to a fresh controller: b holds the turn, and the
      table lists b, then a, on their own channels. */
  lemma TwoConnected(w: nat, h: nat, a: string, b: string, ca: ChannelId, cb: ChannelId) returns (cs2: CState)
    requires a != b
    ensures var cs1 := ConnectOn(Initial(w, h), b, cb, {});
            && Inv(Initial(w, h)) && Inv(cs1)
            && cs2 == ConnectOn(cs1, a, ca, {}) && Inv(cs2)
            && cs2.turn.Some? && cs2.turn.value.user.name == b
            && |cs2.table| == 2 && cs2.table[0].name == b && cs2.table[0].tx == cb
            && cs2.table[1].name == a && cs2.table[1].tx == ca
  {
    var cs0 := Initial(w, h);
    InitialInv(w, h);
    var cs1 := ConnectOn(cs0, b, cb, {});
    var userB := ConnectFirst(cs0, b, cb);
    var pb := PlayerInfo(b, userB.color, cb);
    cs2 := ConnectOn(cs1, a, ca, {});
    ConnectSpec(cs1, a, ca, {});
    var pa := PlayerInfo(a, GetOn(cs1.bucket, a).1, ca);
    assert WithoutEntry([pb], a) == [pb];
    assert cs2.table == [pb, pa];
  }

  /** Leaving gating mode with two players at a fresh rotation offers the turn
      to the second; when their channel is closed the engine drops them and the
      first takes the turn. */
  lemma PracticeRestart(cs: CState, closed: set<ChannelId>)
    requires Inv(cs) && cs.info.gameMode == Gating
    requires |cs.table| == 2 && cs.table[0].name != cs.table[1].name
    requires cs.game.rotation == Roster(cs.table) && cs.game.index == 0
    ensures var r := GoToModeOn(cs, Practice, closed);
            && (cs.table[1].tx !in closed ==>
                  r.turn == Some(TurnToken(cs.game.rotation[1])) && r.game.rotation == cs.game.rotation)
            && (cs.table[1].tx in closed && cs.table[0].tx !in closed ==>
                  r.turn == Some(TurnToken(cs.game.rotation[0])) && r.game.rotation == [cs.game.rotation[0]])
  {
    var rot := cs.game.rotation;
    var cs1 := cs.(info := cs.info.(gameMode := Practice));
    StartOnSpec(cs1.game);
    var (g', first) := StartOn(cs1.game);
    assert first == Some(PlayerTurn(TurnToken(rot[1]), cs.game.board));
    var start := cs1.(game := g');
    assert cs.table[1..][0] == cs.table[1];
    assert FirstEntry(cs.table, rot[1].name) == Some(cs.table[1]);
    assert FirstEntry(cs.table, rot[0].name) == Some(cs.table[0]);
    if cs.table[1].tx in closed && cs.table[0].tx !in closed {
      YourTurnOnRetry(start, TurnToken(rot[1]), cs.game.board, closed);
      EliminateOnSpec(g', rot[1].name);
      assert rot[1..][0] == rot[1] && rot[1..][1..] == [];
      assert Without(rot, rot[1].name) == [rot[0]];
    }
  }

  /** The first player to connect to a fresh controller takes the turn. */
  lemma ConnectFirst(cs: CState, a: string, ca: ChannelId) returns (userA: User)
    requires Inv(cs) && cs.turn.None? && cs.game.rotation == [] && cs.info.gameMode != Gating
    ensures var r := ConnectOn(cs, a, ca, {});
            && userA == User(a, GetOn(cs.bucket, a).1)
            && Inv(r) && r.game.rotation == [userA] && r.turn == Some(TurnToken(userA))
            && HasEntry(r.table, a)
            && (cs.table == [] ==> r.table == [PlayerInfo(a, userA.color, ca)])
  {
    ConnectSpec(cs, a, ca, {});
    var (bucket', colorA) := GetOn(cs.bucket, a);
    userA := User(a, colorA);
    var entry := PlayerInfo(a, colorA, ca);
    var added := cs.(table := AddedEntries(cs.table, entry), bucket := bucket',
                     game := cs.game.(rotation := [userA]));
    assert cs.game.rotation + [userA] == [userA];
    StartOnSpec(added.game);
    AddedIsOnlyEntry(cs.table, entry);
  }

}
