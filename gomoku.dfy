/** The five-in-a-row rule engine: a board of cells updated in place, the
    recorded winner, and the turn rotation. Every operation is specified by a
    function on the engine's value (`GameState`), and the rules are proved
    about those functions. */
module Gomoku {
  import opened Types
  import opened TurnTracking
  import opened WinScan

  /** A move as the client sends it: column and row, both unsigned. */
  datatype PlayerMove = PlayerMove(x: nat, y: nat)

  /** What make_move reports. */
  datatype MoveOutcome = MoveInvalid | MoveOk | MoveWin(coords: FirstAndLast) | MoveDraw

  /** The engine as a value: the board, the winner once there is one, and the
      rotation with its current position. */
  datatype GameState = GameState(
    board: BoardState,
    winner: Option<(User, FirstAndLast)>,
    rotation: seq<User>,
    index: nat)

  // ---------------------------------------------------------------------------
  // Specification functions

  /** try_place on a board value: the new board and the placement result. The
      coordinates go through `as i32` first. */
  function TryPlaceOn(b: BoardState, user: User, x: nat, y: nat): (r: (BoardState, PlaceResult))
    requires b.Valid()
    ensures r.0.Valid() && r.0.width == b.width && r.0.height == b.height
  {
    var cx, cy := AsI32(x), AsI32(y);
    match At(b, cx, cy)
    case None => (b, PlaceInvalid)
    case Some(Occupied(_)) => (b, PlaceInvalid)
    case Some(Empty) =>
      var b' := Place(b, user, cx, cy);
      (b', CheckForWinAround(b', cx, cy))
  }

  /** make_move on a board value: an ordinary placement on a board that is
      then full is a draw. */
  function MakeMoveOn(b: BoardState, user: User, m: PlayerMove): (r: (BoardState, MoveOutcome))
    requires b.Valid()
    ensures r.0.Valid() && r.0.width == b.width && r.0.height == b.height
  {
    var (b', placed) := TryPlaceOn(b, user, m.x, m.y);
    match placed
    case PlaceInvalid => (b', MoveInvalid)
    case PlaceOk => (b', if IsFull(b') then MoveDraw else MoveOk)
    case PlaceWin(coords) => (b', MoveWin(coords))
  }

  /** advance_player on the value. */
  function AdvanceOn(g: GameState): (GameState, Option<User>) {
    if g.rotation == [] then (g, None)
    else
      var i := NextIndex(g.index, |g.rotation|);
      (g.(index := i), Some(g.rotation[i]))
  }

  /** remove_player on the value. */
  function RemoveOn(g: GameState, name: string): GameState
    requires HasName(g.rotation, name)
  {
    g.(rotation := Without(g.rotation, name), index := IndexAfterRemove(g.rotation, g.index, name))
  }

  /** The turn handed to `next`, if anyone, showing board `b`. */
  function TurnFor(next: Option<User>, b: BoardState): Option<PlayerTurn<BoardState>> {
    match next
    case None => None
    case Some(u) => Some(PlayerTurn(TurnToken(u), b))
  }

  /** Removing `name` and handing the turn on: current_player_disconnected, and
      the tail of both invalid outcomes of player_moves. */
  function EliminateOn(g: GameState, name: string): (GameState, Option<PlayerTurn<BoardState>>)
    requires HasName(g.rotation, name)
  {
    var (g', next) := AdvanceOn(RemoveOn(g, name));
    (g', TurnFor(next, g'.board))
  }

  /** try_start_game on the value. */
  function StartOn(g: GameState): (GameState, Option<PlayerTurn<BoardState>>) {
    var (g', next) := AdvanceOn(g);
    (g', TurnFor(next, g'.board))
  }

  /** What player_moves needs in order not to panic: the mover of an invalid
      move is in the rotation (it is removed with an unwrapped search), and an
      ordinary move leaves somebody to advance to. */
  predicate MoveAllowed(g: GameState, user: User, mv: Option<PlayerMove>)
    requires g.board.Valid()
  {
    match mv
    case None => HasName(g.rotation, user.name)
    case Some(m) =>
      var outcome := MakeMoveOn(g.board, user, m).1;
      && (outcome == MoveInvalid ==> HasName(g.rotation, user.name))
      && (outcome == MoveOk ==> g.rotation != [])
  }

  /** player_moves on the value. `mv` is None when the message did not parse. */
  function PlayerMovesSpec(g: GameState, user: User, mv: Option<PlayerMove>): (GameState, PlayerMoveResult<BoardState>)
    requires g.board.Valid() && MoveAllowed(g, user, mv)
  {
    match mv
    case None =>
      var (g', next) := EliminateOn(g, user.name);
      (g', InvalidFormat(next))
    case Some(m) =>
      var (b', outcome) := MakeMoveOn(g.board, user, m);
      match outcome
      case MoveInvalid =>
        var (g', next) := EliminateOn(g, user.name);
        (g', InvalidMove(next))
      case MoveOk =>
        var (g', next) := AdvanceOn(g.(board := b'));
        (g', Ok(PlayerTurn(TurnToken(next.value), b')))
      case MoveWin(coords) => (g.(board := b', winner := Some((user, coords))), Win)
      case MoveDraw => (g.(board := b'), Draw)
  }

  // ---------------------------------------------------------------------------
  // What the specification functions promise

  /** A placement is rejected exactly when the cell is off the board or taken,
      and then the board is untouched; otherwise exactly the one cell gains
      the stone, and the result is a win exactly when the placer now has five
      in a row through it. */
  lemma TryPlaceOnSpec(b: BoardState, user: User, x: nat, y: nat)
    requires b.Valid()
    ensures var r := TryPlaceOn(b, user, x, y);
            var cx, cy := AsI32(x), AsI32(y);
            && (r.1 == PlaceInvalid <==> At(b, cx, cy) != Some(Empty))
            && (r.1 == PlaceInvalid ==> r.0 == b)
            && (r.1 != PlaceInvalid ==>
                  && At(r.0, cx, cy) == Some(Occupied(user))
                  && (forall x', y' :: (x', y') != (cx, cy) ==> At(r.0, x', y') == At(b, x', y'))
                  && (r.1.PlaceWin? <==> AnyLineThrough(r.0, user, cx, cy)))
  {
    var cx, cy := AsI32(x), AsI32(y);
    if At(b, cx, cy) == Some(Empty) {
      var b' := Place(b, user, cx, cy);
      AtAfterPlace(b, user, cx, cy, cx, cy);
      forall x', y' | (x', y') != (cx, cy)
        ensures At(b', x', y') == At(b, x', y')
      {
        AtAfterPlace(b, user, cx, cy, x', y');
      }
      CheckForWinAroundSpec(b', user, cx, cy);
    }
  }

  /** make_move has exactly four outcomes: invalid when the cell is off the
      board or taken (board untouched); otherwise the stone is placed, and the
      move wins when it completes five in a row, draws when it does not and
      the board is full, and is ordinary when neither. */
  lemma MakeMoveOnSpec(b: BoardState, user: User, m: PlayerMove)
    requires b.Valid()
    ensures var r := MakeMoveOn(b, user, m);
            var cx, cy := AsI32(m.x), AsI32(m.y);
            && (r.1 == MoveInvalid <==> At(b, cx, cy) != Some(Empty))
            && (r.1 == MoveInvalid ==> r.0 == b)
            && (r.1 != MoveInvalid ==> r.0 == Place(b, user, cx, cy) && At(r.0, cx, cy) == Some(Occupied(user)))
            && (r.1.MoveWin? <==> r.1 != MoveInvalid && AnyLineThrough(r.0, user, cx, cy))
            && (r.1 == MoveDraw <==> r.1 != MoveInvalid && !AnyLineThrough(r.0, user, cx, cy) && IsFull(r.0))
            && (r.1 == MoveOk <==> r.1 != MoveInvalid && !AnyLineThrough(r.0, user, cx, cy) && !IsFull(r.0))
  {
    TryPlaceOnSpec(b, user, m.x, m.y);
  }

  /** Eliminating a player removes every entry with that name and nothing
      else, keeps the board and winner, and hands the turn to a remaining
      player showing the board, or to nobody exactly when nobody remains. With
      unique names, when the eliminated player held the turn from a position
      other than the first, the turn goes to the player who followed them. */
  lemma EliminateOnSpec(g: GameState, name: string)
    requires HasName(g.rotation, name)
    ensures var (g', next) := EliminateOn(g, name);
            && g'.rotation == Without(g.rotation, name)
            && |g'.rotation| < |g.rotation|
            && g'.board == g.board && g'.winner == g.winner
            && (next == None <==> g'.rotation == [])
            && (next.Some? ==> next.value.token.user in g'.rotation
                               && next.value.token.user.name != name
                               && next.value.state == g.board)
    ensures UniqueNames(g.rotation) && 0 < g.index < |g.rotation| && g.rotation[g.index].name == name ==>
              EliminateOn(g, name).1 == Some(PlayerTurn(TurnToken(g.rotation[NextIndex(g.index, |g.rotation|)]), g.board))
  {
    var (g', next) := EliminateOn(g, name);
    if next.Some? {
      assert next.value.token.user in g'.rotation;
    }
    if UniqueNames(g.rotation) && 0 < g.index < |g.rotation| && g.rotation[g.index].name == name {
      CurrentRemovalPassesTurnOn(g.rotation, g.index);
    }
  }

  /** A message that does not parse eliminates the mover exactly as a
      disconnection of the current player does, reported as InvalidFormat; a
      well-formed move on a taken or off-board cell does the same, reported as
      InvalidMove. */
  lemma InvalidOutcomesEliminate(g: GameState, user: User, mv: Option<PlayerMove>)
    requires g.board.Valid() && MoveAllowed(g, user, mv)
    ensures var r := PlayerMovesSpec(g, user, mv);
            && (r.1.IsInvalid() <==> mv == None || MakeMoveOn(g.board, user, mv.value).1 == MoveInvalid)
            && (r.1.IsInvalid() ==>
                  HasName(g.rotation, user.name) && (r.0, r.1.Replacement()) == EliminateOn(g, user.name))
            && (r.1.InvalidFormat? <==> mv == None)
  {
  }

  /** An ordinary move places the stone, keeps the rotation, moves the index one
      on, and hands the turn to the player at the new index, showing the new
      board. */
  lemma OkOutcomePassesTurn(g: GameState, user: User, m: PlayerMove)
    requires g.board.Valid() && MoveAllowed(g, user, Some(m))
    requires PlayerMovesSpec(g, user, Some(m)).1.Ok?
    ensures var (g', r) := PlayerMovesSpec(g, user, Some(m));
            var cx, cy := AsI32(m.x), AsI32(m.y);
            && g'.rotation == g.rotation && g'.winner == g.winner
            && g'.board == Place(g.board, user, cx, cy)
            && At(g'.board, cx, cy) == Some(Occupied(user))
            && !IsFull(g'.board) && !AnyLineThrough(g'.board, user, cx, cy)
            && g'.index == NextIndex(g.index, |g.rotation|)
            && r.turn == PlayerTurn(TurnToken(g.rotation[g'.index]), g'.board)
  {
    MakeMoveOnSpec(g.board, user, m);
  }

  /** A winning move places the stone, records the mover and the reported
      coordinates as the winner, and hands no turn out: the rotation and its
      index stay as they were. */
  lemma WinOutcomeRecordsWinner(g: GameState, user: User, m: PlayerMove)
    requires g.board.Valid() && MoveAllowed(g, user, Some(m))
    requires PlayerMovesSpec(g, user, Some(m)).1.Win?
    ensures var (g', _) := PlayerMovesSpec(g, user, Some(m));
            var cx, cy := AsI32(m.x), AsI32(m.y);
            && g'.rotation == g.rotation && g'.index == g.index
            && g'.board == Place(g.board, user, cx, cy)
            && AnyLineThrough(g'.board, user, cx, cy)
            && g'.winner.Some? && g'.winner.value.0 == user
            && g'.winner.value.1 == MakeMoveOn(g.board, user, m).1.coords
  {
    MakeMoveOnSpec(g.board, user, m);
  }

  /** A drawing move fills the last empty cell without completing a line, and
      leaves the rotation, index and winner as they were. */
  lemma DrawOutcomeFillsBoard(g: GameState, user: User, m: PlayerMove)
    requires g.board.Valid() && MoveAllowed(g, user, Some(m))
    requires PlayerMovesSpec(g, user, Some(m)).1.Draw?
    ensures var (g', _) := PlayerMovesSpec(g, user, Some(m));
            var cx, cy := AsI32(m.x), AsI32(m.y);
            && g'.rotation == g.rotation && g'.index == g.index && g'.winner == g.winner
            && g'.board == Place(g.board, user, cx, cy)
            && IsFull(g'.board) && !AnyLineThrough(g'.board, user, cx, cy)
  {
    MakeMoveOnSpec(g.board, user, m);
  }

  /** Whatever player_moves reports, the board keeps its dimensions, the
      rotation only loses users, and any turn it hands out (the next turn of an
      ordinary move, the replacement turn of an invalid one) goes to a user
      still in the rotation. */
  lemma PlayerMovesTurnsStayInRotation(g: GameState, user: User, mv: Option<PlayerMove>)
    requires g.board.Valid() && MoveAllowed(g, user, mv)
    ensures var (g', r) := PlayerMovesSpec(g, user, mv);
            && g'.board.Valid() && g'.board.width == g.board.width && g'.board.height == g.board.height
            && (forall u :: u in g'.rotation ==> u in g.rotation)
            && (r.Ok? ==> r.turn.token.user in g'.rotation)
            && (r.IsInvalid() && r.Replacement().Some? ==> r.Replacement().value.token.user in g'.rotation)
  {
    if mv.None? || MakeMoveOn(g.board, user, mv.value).1 == MoveInvalid {
      EliminateOnSpec(g, user.name);
    }
  }

  /** Starting a game hands the turn to the player after the current index
      (position 1 in a fresh rotation of several), showing the board; it gives
      no turn exactly when the rotation is empty. */
  lemma StartOnSpec(g: GameState)
    ensures var (g', next) := StartOn(g);
            && g'.rotation == g.rotation && g'.board == g.board && g'.winner == g.winner
            && (next == None <==> g.rotation == [])
            && (next.Some? ==> next.value.token.user in g.rotation && next.value.state == g.board)
            && (g.index == 0 && |g.rotation| > 1 ==> next == Some(PlayerTurn(TurnToken(g.rotation[1]), g.board)))
  {
    if g.rotation != [] {
      NextIndexInRange(g.index % |g.rotation|, |g.rotation|);
    }
  }

  // ---------------------------------------------------------------------------
  // The engine's objects

  /** The board: a fixed-size array of cells, `width` to a row, updated in place. */
  class Board {
    const width: nat
    const height: nat
    const cells: array<Cell>

    ghost predicate Valid()
      reads this
    {
      cells.Length == width * height
    }

    /** The board's value. */
    function State(): (s: BoardState)
      reads this, cells
      requires Valid()
      ensures s.Valid() && s.width == width && s.height == height
    {
      BoardState(cells[..], width, height)
    }

    /** A `w` by `h` board of empty cells. */
    constructor (w: nat, h: nat)
      ensures Valid() && State() == EmptyBoard(w, h)
      ensures fresh(cells)
    {
      width, height := w, h;
      cells := new Cell[w * h](_ => Empty);
    }

    /** try_place: writes the stone into the cell when it is on the board and
      empty, then scans around it. */
    method TryPlace(user: User, x: nat, y: nat) returns (r: PlaceResult)
      requires Valid()
      modifies cells
      ensures Valid()
      ensures (State(), r) == TryPlaceOn(old(State()), user, x, y)
    {
      ghost var before := State();
      var cx, cy := AsI32(x), AsI32(y);
      if cx < 0 || cy < 0 || cx >= AsI32(width) || cy >= AsI32(height) {
        assert At(before, cx, cy) == None;
        return PlaceInvalid;
      }
      CellIndexInRange(width, height, cx, cy);
      var i := cy * width + cx;
      assert At(before, cx, cy) == Some(cells[i]);
      if cells[i] != Empty {
        return PlaceInvalid;
      }
      cells[i] := Occupied(user);
      assert State() == Place(before, user, cx, cy);
      r := CheckForWinAround(State(), cx, cy);
    }
  }

  /** The engine. */
  class Game {
    var board: Board
    var winner: Option<(User, FirstAndLast)>
    var players: TurnTracker

    ghost predicate Valid()
      reads this, board
    {
      board.Valid()
    }

    /** The engine's value. */
    function State(): (g: GameState)
      reads this, board, board.cells, players
      requires Valid()
      ensures g.board.Valid()
    {
      GameState(board.State(), winner, players.players, players.currentPlayerIndex)
    }

    /** Game::new: an empty `w` by `h` board, no winner, and a rotation over
      `users` at position 0. */
    constructor (w: nat, h: nat, users: seq<User>)
      ensures Valid() && State() == GameState(EmptyBoard(w, h), None, users, 0)
      ensures fresh(board) && fresh(board.cells) && fresh(players)
    {
      board := new Board(w, h);
      winner := None;
      players := new TurnTracker(users);
    }

    /** make_move: places the stone, records the winner on a win, and reports
      the outcome; the rotation is not touched. */
    method MakeMove(user: User, m: PlayerMove) returns (outcome: MoveOutcome)
      requires Valid()
      modifies this, board.cells
      ensures Valid() && board == old(board) && players == old(players)
      ensures (board.State(), outcome) == MakeMoveOn(old(board.State()), user, m)
      ensures winner == if outcome.MoveWin? then Some((user, outcome.coords)) else old(winner)
    {
      var placed := board.TryPlace(user, m.x, m.y);
      match placed {
        case PlaceInvalid =>
          outcome := MoveInvalid;
        case PlaceOk =>
          outcome := if IsFull(board.State()) then MoveDraw else MoveOk;
        case PlaceWin(coords) =>
          winner := Some((user, coords));
          outcome := MoveWin(coords);
      }
    }

    /** player_moves: plays the move of the token's holder; `mv` is None when
      the message did not parse. */
    method PlayerMoves(token: TurnToken, mv: Option<PlayerMove>) returns (r: PlayerMoveResult<BoardState>)
      requires Valid() && MoveAllowed(State(), token.user, mv)
      modifies this, board.cells, players
      ensures Valid() && board == old(board) && players == old(players)
      ensures (State(), r) == PlayerMovesSpec(old(State()), token.user, mv)
    {
      var user := token.user;
      match mv {
        case None =>
          players.RemovePlayer(user.name);
          var next := players.AdvancePlayer();
          r := InvalidFormat(TurnFor(next, board.State()));
        case Some(m) =>
          var outcome := MakeMove(user, m);
          match outcome {
            case MoveInvalid =>
              players.RemovePlayer(user.name);
              var next := players.AdvancePlayer();
              r := InvalidMove(TurnFor(next, board.State()));
            case MoveOk =>
              var next := players.AdvancePlayer();
              r := Ok(PlayerTurn(TurnToken(next.value), board.State()));
            case MoveWin(_) =>
              r := Win;
            case MoveDraw =>
              r := Draw;
          }
      }
    }

    /** player_connected: the user joins the end of the rotation. */
    method PlayerConnected(user: User)
      requires Valid()
      modifies players
      ensures Valid() && State() == old(State()).(rotation := old(players.players) + [user])
    {
      players.AddPlayer(user);
    }

    /** player_disconnected: the user leaves the rotation; the name must be in
      it, as the source unwraps its search. */
    method PlayerDisconnected(username: string)
      requires Valid() && HasName(players.players, username)
      modifies players
      ensures Valid() && State() == RemoveOn(old(State()), username)
    {
      players.RemovePlayer(username);
    }

    /** current_player_disconnected: the token's holder leaves and the turn goes
      on to whoever is next, if anyone. */
    method CurrentPlayerDisconnected(token: TurnToken) returns (next: Option<PlayerTurn<BoardState>>)
      requires Valid() && HasName(players.players, token.user.name)
      modifies players
      ensures Valid() && (State(), next) == EliminateOn(old(State()), token.user.name)
    {
      players.RemovePlayer(token.user.name);
      var user := players.AdvancePlayer();
      next := TurnFor(user, board.State());
    }

    /** try_start_game: hands out the first turn, if the rotation has anybody. */
    method TryStartGame() returns (first: Option<PlayerTurn<BoardState>>)
      requires Valid()
      modifies players
      ensures Valid() && (State(), first) == StartOn(old(State()))
    {
      var user := players.AdvancePlayer();
      first := TurnFor(user, board.State());
    }

    /** reset: a new engine with the same dimensions over `users`. */
    method Reset(users: seq<User>)
      requires Valid()
      modifies this
      ensures Valid() && State() == GameState(EmptyBoard(old(board.width), old(board.height)), None, users, 0)
      ensures fresh(board) && fresh(board.cells) && fresh(players)
    {
      var w, h := board.width, board.height;
      board := new Board(w, h);
      winner := None;
      players := new TurnTracker(users);
    }
  }
}
