/** The controller loop's state as objects: the engine and the player table
    are updated in place, the settings live in a ControllerInfo object, and
    each event of the loop is a method. Every method is proved to take the
    controller to the state its transition function gives, so the properties
    proved about those functions hold of the objects too. */
module ControlLoop {
  import opened Types
  import opened TurnTracking
  import opened WinScan
  import opened Gomoku
  import opened Registry
  import opened Control

  /** ControllerInfo: the settings and scores, updated field by field. */
  class ControllerInfo {
    var connectedUsers: seq<User>
    var gameMode: GameMode
    var score: map<string, nat>
    var turnDelay: nat
    var winDelay: nat

    function Value(): Info
      reads this
    {
      Info(connectedUsers, gameMode, score, turnDelay, winDelay)
    }

    /** ControllerInfo::default. */
    constructor ()
      ensures Value() == DefaultInfo
    {
      connectedUsers := [];
      gameMode := Practice;
      score := map[];
      turnDelay := 200;
      winDelay := 500;
    }

    /** add_player_win: one more win for `name`, from 1 for a first win. */
    method AddPlayerWin(name: string)
      modifies this
      ensures Value() == old(Value()).(score := Tally(old(score), name))
    {
      if name in score {
        score := score[name := score[name] + 1];
      } else {
        score := score[name := 1];
      }
    }

    /** reset_scores: forgets every score. */
    method ResetScores()
      modifies this
      ensures Value() == old(Value()).(score := map[])
    {
      score := map[];
    }
  }

  /** The controller: the engine, the player table, the settings, the
      outstanding turn, and the messages delivered so far. */
  class Controller {
    const game: Game
    const players: PlayerTable
    const info: ControllerInfo
    var turn: Option<TurnToken>
    var sent: seq<(ChannelId, ControllerToPlayerMsg)>
    var replies: seq<(string, ClientError)>

    /** The controller as a value. */
    function State(): CState
      reads this, game, game.board, game.board.cells, game.players, players, players.paintBucket, info
      requires game.Valid()
    {
      CState(game.State(), players.players, players.paintBucket.State(), info.Value(), turn, sent, replies)
    }

    ghost predicate Valid()
      reads this, game, game.board, game.board.cells, game.players, players, players.paintBucket, info
    {
      game.Valid() && Inv(State())
    }

    /** The controller over a fresh `w` by `h` engine, before any event. */
    constructor (w: nat, h: nat)
      ensures Valid() && State() == Initial(w, h)
    {
      game := new Game(w, h, []);
      players := new PlayerTable();
      info := new ControllerInfo();
      turn := None;
      sent := [];
      replies := [];
    }

    /** The last step of every event: the settings show the table's players. */
    method RefreshUsers()
      requires game.Valid()
      modifies info
      ensures game.Valid() && State() == Refresh(old(State()))
    {
      info.connectedUsers := Roster(players.players);
    }

    /** your_turn: offers the turn, eliminating the holders whose channel is
      closed, until a delivery succeeds or nobody is left. */
    method YourTurn(token: TurnToken, snapshot: BoardState, closed: set<ChannelId>) returns (t: Option<TurnToken>)
      requires game.Valid() && RotationRegistered(State()) && token.user in game.players.players
      modifies this, game.players
      ensures game.Valid() && game.board == old(game.board) && game.players == old(game.players)
      ensures (State(), t) == YourTurnOn(old(State()), token, snapshot, closed)
    {
      ghost var goal := YourTurnOn(State(), token, snapshot, closed);
      var tok, snap := token, snapshot;
      while true
        invariant game.Valid() && game.board == old(game.board) && game.players == old(game.players)
        invariant RotationRegistered(State()) && tok.user in game.players.players
        invariant YourTurnOn(State(), tok, snap, closed) == goal
        decreases |game.players.players|
      {
        if info.gameMode == Gating {
          return None;
        }
        ghost var before := State();
        var p := players.Get(tok.user.name).value;
        if p.tx !in closed {
          sent := sent + [(p.tx, YourTurnMsg(snap))];
          assert State() == before.(sent := before.sent + [(p.tx, YourTurnMsg(snap))]);
          return Some(tok);
        }
        YourTurnOnRetry(before, tok, snap, closed);
        var next := game.CurrentPlayerDisconnected(tok);
        assert State() == before.(game := game.State());
        match next {
          case None =>
            return None;
          case Some(pt) =>
            tok, snap := pt.token, pt.state;
        }
      }
    }

    /** first_move_new_game: asks the engine for a first turn and offers it. */
    method FirstMoveNewGame(closed: set<ChannelId>) returns (t: Option<TurnToken>)
      requires game.Valid() && RotationRegistered(State())
      modifies this, game.players
      ensures game.Valid() && game.board == old(game.board) && game.players == old(game.players)
      ensures (State(), t) == FirstMoveOn(old(State()), closed)
    {
      StartOnSpec(game.State());
      var first := game.TryStartGame();
      match first {
        case None =>
          t := None;
        case Some(pt) =>
          t := YourTurn(pt.token, pt.state, closed);
      }
    }

    /** send_to_all: delivers the game-over message on every open channel,
      collecting the names whose channel is closed, then removes those. */
    method SendToAll(reason: GameOverReason, closed: set<ChannelId>)
      requires game.Valid()
      modifies this, players
      ensures game.Valid() && State() == SendToAllOn(old(State()), reason, closed)
    {
      var failed := Announce(GameOver(reason), closed);
      RemoveAll(failed);
    }

    /** The first loop of send_to_all. */
    method Announce(msg: ControllerToPlayerMsg, closed: set<ChannelId>) returns (failed: seq<string>)
      modifies this
      ensures sent == old(sent) + Deliveries(players.players, msg, closed)
      ensures failed == FailedNames(players.players, closed)
      ensures turn == old(turn) && replies == old(replies)
    {
      var table := players.players;
      failed := [];
      var i := 0;
      while i < |table|
        invariant 0 <= i <= |table|
        invariant turn == old(turn) && replies == old(replies)
        invariant sent + Deliveries(table[i..], msg, closed) == old(sent) + Deliveries(table, msg, closed)
        invariant failed + FailedNames(table[i..], closed) == FailedNames(table, closed)
      {
        var p := table[i];
        ghost var rest := table[i + 1..];
        assert table[i..][1..] == rest;
        if p.tx in closed {
          assert FailedNames(table[i..], closed) == [p.name] + FailedNames(rest, closed);
          assert Deliveries(table[i..], msg, closed) == Deliveries(rest, msg, closed);
          assert failed + ([p.name] + FailedNames(rest, closed)) == (failed + [p.name]) + FailedNames(rest, closed);
          failed := failed + [p.name];
        } else {
          assert FailedNames(table[i..], closed) == FailedNames(rest, closed);
          assert Deliveries(table[i..], msg, closed) == [(p.tx, msg)] + Deliveries(rest, msg, closed);
          assert sent + ([(p.tx, msg)] + Deliveries(rest, msg, closed)) == (sent + [(p.tx, msg)]) + Deliveries(rest, msg, closed);
          sent := sent + [(p.tx, msg)];
        }
        i := i + 1;
      }
    }

    /** The second loop of send_to_all. */
    method RemoveAll(names: seq<string>)
      modifies players
      ensures players.players == RemoveNames(old(players.players), names)
      ensures players.paintBucket == old(players.paintBucket)
      ensures players.paintBucket.State() == old(players.paintBucket.State())
    {
      var j := 0;
      while j < |names|
        invariant 0 <= j <= |names|
        invariant players.paintBucket == old(players.paintBucket)
        invariant players.paintBucket.State() == old(players.paintBucket.State())
        invariant RemoveNames(players.players, names[j..]) == RemoveNames(old(players.players), names)
      {
        assert names[j..][1..] == names[j + 1..];
        var _ := players.RemovePlayer(names[j]);
        j := j + 1;
      }
    }


    /** The tail of both invalid outcomes of react_to_player_move: offer the
      replacement turn, or report that nobody is left. */
    method OfferReplacement(next: Option<PlayerTurn<BoardState>>, closed: set<ChannelId>) returns (ret: MovesReturn)
      requires game.Valid() && RotationRegistered(State())
      requires next.Some? ==> next.value.token.user in game.players.players
      modifies this, game.players
      ensures game.Valid() && game.board == old(game.board) && game.players == old(game.players)
      ensures (State(), ret) == Control.OfferReplacement(old(State()), next, closed)
    {
      match next {
        case None =>
          ret := ReturnNone;
        case Some(pt) =>
          var t := YourTurn(pt.token, pt.state, closed);
          ret := if t.None? then ReturnNone else NextTurn(t.value);
      }
    }

    /** react_to_player_move: offers the next turn after an ordinary move,
      announces a draw or a win (scoring the win), and answers an invalid
      move with an error before offering the replacement turn. */
    method React(who: string, result: PlayerMoveResult<BoardState>, errOpen: bool, closed: set<ChannelId>) returns (ret: MovesReturn)
      requires game.Valid() && RotationRegistered(State()) && TurnsInRotation(result, game.players.players)
      requires result.InvalidFormat? ==> errOpen
      modifies this, game.players, players, info
      ensures game.Valid() && game.board == old(game.board) && game.players == old(game.players)
      ensures (State(), ret) == ReactOn(old(State()), who, result, errOpen, closed)
    {
      match result {
        case Ok(pt) =>
          var t := YourTurn(pt.token, pt.state, closed);
          ret := if t.None? then ReturnNone else NextTurn(t.value);
        case Draw =>
          SendToAll(Drawn, closed);
          ret := GameIsOver;
        case Win =>
          SendToAll(Winner(who), closed);
          info.AddPlayerWin(who);
          ret := GameIsOver;
        case InvalidMove(next) =>
          if errOpen {
            replies := replies + [(who, InvalidMoveError)];
          }
          ret := OfferReplacement(next, closed);
        case InvalidFormat(next) =>
          replies := replies + [(who, InvalidMessageFormat)];
          ret := OfferReplacement(next, closed);
      }
    }

    /** A player connects: registered in the table and the engine; a game is
      started only when no turn is outstanding. */
    method Connect(name: string, ch: ChannelId, closed: set<ChannelId>)
      requires Valid()
      modifies this, game.players, players, players.paintBucket, info
      ensures Valid() && State() == ConnectOn(old(State()), name, ch, closed)
    {
      ConnectSpec(State(), name, ch, closed);
      Register(name, ch);
      StartIfIdle(closed);
      RefreshUsers();
    }

    /** The first half of a connection: add_new_player, then player_connected. */
    method Register(name: string, ch: ChannelId)
      requires game.Valid() && RotationRegistered(State())
      modifies game.players, players, players.paintBucket
      ensures game.Valid() && game.board == old(game.board) && game.players == old(game.players)
      ensures State() == Registered(old(State()), name, ch)
    {
      var newPlayer := players.AddNewPlayer(name, ch);
      game.PlayerConnected(User(newPlayer.name, newPlayer.color));
    }

    /** With no turn outstanding: try_start_game, then your_turn. */
    method StartIfIdle(closed: set<ChannelId>)
      requires game.Valid() && RotationRegistered(State())
      modifies this, game.players
      ensures game.Valid() && game.board == old(game.board) && game.players == old(game.players)
      ensures State() == Control.StartIfIdle(old(State()), closed)
    {
      if turn.None? {
        var t := FirstMoveNewGame(closed);
        turn := t;
      }
    }

    /** A player disconnects. The engine is told about a player other than the
      holder only when the table had them and the engine still has them. */
    method Disconnect(name: string, closed: set<ChannelId>)
      requires Valid()
      modifies this, game.players, players, info
      ensures Valid() && State() == DisconnectOn(old(State()), name, closed)
    {
      DisconnectSpec(State(), name, closed);
      match turn {
        case None =>
        case Some(t) =>
          if t.user.name == name {
            HolderLeaves(closed);
          } else {
            OtherLeaves(name);
          }
      }
      RefreshUsers();
    }

    /** The holder of the turn left: current_player_disconnected, then the
      replacement turn is offered. */
    method HolderLeaves(closed: set<ChannelId>)
      requires Valid() && turn.Some?
      modifies this, game.players
      ensures game.Valid() && game.board == old(game.board) && game.players == old(game.players)
      ensures State() == Control.HolderLeaves(old(State()), closed)
    {
      var t := turn.value;
      InRotationHasName(game.players.players, t.user);
      EliminateOnSpec(game.State(), t.user.name);
      var next := game.CurrentPlayerDisconnected(t);
      ghost var s1 := State();
      assert s1 == old(State()).(game := game.State());
      match next {
        case None =>
          SetTurn(None);
        case Some(pt) =>
          var r := YourTurn(pt.token, pt.state, closed);
          ghost var offered := YourTurnOn(s1, pt.token, pt.state, closed);
          assert State() == offered.0 && r == offered.1;
          SetTurn(r);
      }
    }

    /** Records the outstanding turn. */
    method SetTurn(t: Option<TurnToken>)
      requires game.Valid()
      modifies this
      ensures State() == old(State()).(turn := t)
    {
      turn := t;
    }

    /** Somebody other than the holder left: remove_player on the table, and
      player_disconnected on the engine when it still has them. */
    method OtherLeaves(name: string)
      requires game.Valid()
      modifies game.players, players
      ensures game.Valid() && game.board == old(game.board) && game.players == old(game.players)
      ensures State() == Control.OtherLeaves(old(State()), name)
    {
      var removed := players.RemovePlayer(name);
      if removed && HasName(game.players.players, name) {
        game.PlayerDisconnected(name);
      }
    }

    /** The game mode changes: leaving gating mode starts a game; entering it
      clears the scores, resets the engine over the table and drops the turn. */
    method GoToMode(mode: GameMode, closed: set<ChannelId>)
      requires Valid()
      modifies this, game, game.players, info
      ensures Valid() && State() == GoToModeOn(old(State()), mode, closed)
    {
      GoToModeSpec(State(), mode, closed);
      var openGates := info.gameMode == Gating && mode != Gating;
      info.gameMode := mode;
      if openGates {
        OpenGates(closed);
      }
      if info.gameMode == Gating {
        CloseGates();
      }
      RefreshUsers();
    }

    /** Leaving gating mode: try_start_game, then your_turn. */
    method OpenGates(closed: set<ChannelId>)
      requires game.Valid() && RotationRegistered(State())
      modifies this, game.players
      ensures game.Valid() && game.board == old(game.board) && game.players == old(game.players)
      ensures State() == Control.OpenGates(old(State()), closed)
    {
      StartOnSpec(game.State());
      var first := game.TryStartGame();
      match first {
        case None =>
        case Some(pt) =>
          var r := YourTurn(pt.token, pt.state, closed);
          turn := r;
      }
    }

    /** Entering gating mode: reset_scores, then reset over the table's players. */
    method CloseGates()
      requires game.Valid()
      modifies this, game, info
      ensures game.Valid() && State() == Control.CloseGates(old(State()))
    {
      info.ResetScores();
      game.Reset(Roster(players.players));
      turn := None;
    }

    /** ResetGame: nothing happens. */
    method ResetGame()
      requires Valid()
      modifies info
      ensures Valid() && State() == ResetGameOn(old(State()))
    {
      RefreshUsers();
    }

    /** SetTurnDelay: the delay before each turn offer. */
    method SetTurnDelay(delay: nat)
      requires Valid()
      modifies info
      ensures Valid() && State() == SetTurnDelayOn(old(State()), delay)
    {
      info.turnDelay := delay;
      RefreshUsers();
    }

    /** SetWinDelay: the pause after a game. */
    method SetWinDelay(delay: nat)
      requires Valid()
      modifies info
      ensures Valid() && State() == SetWinDelayOn(old(State()), delay)
    {
      info.winDelay := delay;
      RefreshUsers();
    }

    /** A move was dropped unsent: nothing happens. */
    method PlayerMoveDropped()
      requires Valid()
      modifies info
      ensures Valid() && State() == PlayerMoveDroppedOn(old(State()))
    {
      RefreshUsers();
    }

    /** The holder of the turn moves; `mv` is None when the message did not
      parse and `errOpen` says whether the mover's error reply can be
      delivered. */
    method Move(mv: Option<PlayerMove>, errOpen: bool, closed: set<ChannelId>)
      requires Valid() && turn.Some? && (mv.None? ==> errOpen)
      modifies this, game, game.board.cells, game.players, players, info
      ensures Valid() && State() == MoveOn(old(State()), mv, errOpen, closed)
    {
      MoveKeepsInv(State(), mv, errOpen, closed);
      var ret := PlayAndReact(mv, errOpen, closed);
      Settle(ret, closed);
      RefreshUsers();
    }

    /** player_moves on the engine, then react_to_player_move. */
    method PlayAndReact(mv: Option<PlayerMove>, errOpen: bool, closed: set<ChannelId>) returns (ret: MovesReturn)
      requires Valid() && turn.Some? && (mv.None? ==> errOpen)
      modifies this, game, game.board.cells, game.players, players, info
      ensures game.Valid() && game.board == old(game.board) && game.players == old(game.players)
      ensures (State(), ret) == MoveReaction(old(State()), mv, errOpen, closed)
    {
      ghost var s0 := State();
      var token := turn.value;
      InRotationHasName(game.players.players, token.user);
      PlayerMovesTurnsStayInRotation(game.State(), token.user, mv);
      InvalidOutcomesEliminate(game.State(), token.user, mv);
      var result := game.PlayerMoves(token, mv);
      assert State() == s0.(game := game.State());
      SendToAllSpec(State(), Winner(token.user.name), closed);
      SendToAllSpec(State(), Drawn, closed);
      ret := React(token.user.name, result, errOpen, closed);
    }

    /** What the loop does with the reaction: nobody left drops the turn and
      resets the engine; a next turn is kept; the end of a game starts a new
      one. */
    method Settle(ret: MovesReturn, closed: set<ChannelId>)
      requires game.Valid() && (!ret.GameIsOver? ==> RotationRegistered(State()))
      requires ret.NextTurn? ==> ret.token.user in game.players.players
      modifies this, game, game.players
      ensures game.Valid() && State() == AfterReact(old(State()), ret, closed)
    {
      match ret {
        case ReturnNone =>
          turn := None;
          game.Reset(Roster(players.players));
        case NextTurn(t) =>
          turn := Some(t);
        case GameIsOver =>
          game.Reset(Roster(players.players));
          var t := FirstMoveNewGame(closed);
          turn := t;
      }
    }
  }
}
