/** The counter engine: a second rule engine behind the same contract, whose
    whole game is a 32-bit counter that every well-formed move adds to. */
module Dumb {
  import opened Types
  import opened TurnTracking

  /** An unsigned 32-bit integer. */
  type U32 = n: nat | n < 0x1_0000_0000

  /** The snapshot every player is shown: the counter. */
  datatype PlayerState = PlayerState(num: U32)

  /** A well-formed move: the amount to add. */
  datatype PlayerMove = PlayerMove(add: U32)

  /** `num + add` in 32 bits, wrapping past 2^32 - 1 (the overflow behaviour of
      an optimised build; a debug build panics instead). */
  function WrappingAdd(num: U32, add: U32): (r: U32)
    ensures num + add < 0x1_0000_0000 ==> r == num + add
    ensures num + add >= 0x1_0000_0000 ==> r == num + add - 0x1_0000_0000
  {
    (num + add) % 0x1_0000_0000
  }

  /** The engine as a value: the counter, the rotation and its index. */
  datatype CounterState = CounterState(count: PlayerState, rotation: seq<User>, index: nat)

  /** advance_player on the value. */
  function AdvanceOn(g: CounterState): (CounterState, Option<User>) {
    if g.rotation == [] then (g, None)
    else
      var i := NextIndex(g.index, |g.rotation|);
      (g.(index := i), Some(g.rotation[i]))
  }

  /** remove_player on the value. */
  function RemoveOn(g: CounterState, name: string): CounterState
    requires HasName(g.rotation, name)
  {
    g.(rotation := Without(g.rotation, name), index := IndexAfterRemove(g.rotation, g.index, name))
  }

  /** The turn handed to `next`, if anyone, showing the counter. */
  function TurnFor(next: Option<User>, count: PlayerState): Option<PlayerTurn<PlayerState>> {
    match next
    case None => None
    case Some(u) => Some(PlayerTurn(TurnToken(u), count))
  }

  /** current_player_disconnected, and the tail of a malformed move: remove the
      name, then advance. */
  function EliminateOn(g: CounterState, name: string): (CounterState, Option<PlayerTurn<PlayerState>>)
    requires HasName(g.rotation, name)
  {
    var (g', next) := AdvanceOn(RemoveOn(g, name));
    (g', TurnFor(next, g'.count))
  }

  /** What player_moves needs in order not to panic: a malformed move's sender is
      in the rotation (its search is unwrapped) and a well-formed move has
      somebody to advance to (that advance is unwrapped). */
  predicate MoveAllowed(g: CounterState, user: User, mv: Option<PlayerMove>) {
    match mv
    case None => HasName(g.rotation, user.name)
    case Some(_) => g.rotation != []
  }

  /** player_moves on the value. `mv` is None when the message did not parse. */
  function PlayerMovesSpec(g: CounterState, user: User, mv: Option<PlayerMove>): (CounterState, PlayerMoveResult<PlayerState>)
    requires MoveAllowed(g, user, mv)
  {
    match mv
    case None =>
      var (g', next) := EliminateOn(g, user.name);
      (g', InvalidFormat(next))
    case Some(m) =>
      var (g', next) := AdvanceOn(g.(count := PlayerState(WrappingAdd(g.count.num, m.add))));
      (g', Ok(PlayerTurn(TurnToken(next.value), g'.count)))
  }

  /** try_start_game on the value; the rotation must not be empty, since the
      source unwraps the advance. */
  function StartOn(g: CounterState): (CounterState, PlayerTurn<PlayerState>)
    requires g.rotation != []
  {
    var (g', next) := AdvanceOn(g);
    (g', PlayerTurn(TurnToken(next.value), g'.count))
  }

  /** A well-formed move adds to the counter, keeps the rotation and hands the
      turn, with the new counter, to the next position; a malformed one removes
      every entry of the sender and hands the turn on with the counter
      untouched, or to nobody exactly when nobody is left. The engine never
      reports Win, Draw or InvalidMove. */
  lemma PlayerMovesOutcomes(g: CounterState, user: User, mv: Option<PlayerMove>)
    requires MoveAllowed(g, user, mv)
    ensures var (g', r) := PlayerMovesSpec(g, user, mv);
            && !r.Win? && !r.Draw? && !r.InvalidMove?
            && (mv.Some? ==>
                  && r.Ok?
                  && g'.count.num == WrappingAdd(g.count.num, mv.value.add)
                  && g'.rotation == g.rotation
                  && g'.index == NextIndex(g.index, |g.rotation|)
                  && r.turn == PlayerTurn(TurnToken(g.rotation[g'.index]), g'.count))
            && (mv.None? ==>
                  && r.InvalidFormat?
                  && g'.count == g.count
                  && !HasName(g'.rotation, user.name)
                  && (forall u :: u in g'.rotation <==> u in g.rotation && u.name != user.name)
                  && (r.next.None? <==> g'.rotation == [])
                  && (r.next.Some? ==>
                        g'.index < |g'.rotation| &&
                        r.next.value == PlayerTurn(TurnToken(g'.rotation[g'.index]), g.count)))
  {
  }

  /** try_start_game always hands out a turn, to the user one position on,
      showing the counter unchanged. */
  lemma StartOnSpec(g: CounterState)
    requires g.rotation != []
    ensures var (g', first) := StartOn(g);
            && g'.count == g.count && g'.rotation == g.rotation
            && g'.index == NextIndex(g.index, |g.rotation|)
            && first == PlayerTurn(TurnToken(g.rotation[g'.index]), g.count)
  {
  }

  /** The counter engine. */
  class Game {
    var count: PlayerState
    var players: TurnTracker

    /** The engine's value. */
    function State(): CounterState
      reads this, players
    {
      CounterState(count, players.players, players.currentPlayerIndex)
    }

    /** Game::new: the counter at 0 and nobody in the rotation. */
    constructor ()
      ensures State() == CounterState(PlayerState(0), [], 0) && fresh(players)
    {
      count := PlayerState(0);
      players := new TurnTracker([]);
    }

    /** make_ptr: the counter at 0 and a rotation over `users`. */
    constructor WithPlayers(users: seq<User>)
      ensures State() == CounterState(PlayerState(0), users, 0) && fresh(players)
    {
      count := PlayerState(0);
      players := new TurnTracker(users);
    }

    /** make_move: adds the move's amount to the counter. */
    method MakeMove(user: User, m: PlayerMove)
      modifies this
      ensures players == old(players)
      ensures State() == old(State()).(count := PlayerState(WrappingAdd(old(count.num), m.add)))
    {
      count := PlayerState(WrappingAdd(count.num, m.add));
    }

    /** player_moves: plays the move of the token's holder; `mv` is None when
      the message did not parse. */
    method PlayerMoves(token: TurnToken, mv: Option<PlayerMove>) returns (r: PlayerMoveResult<PlayerState>)
      requires MoveAllowed(State(), token.user, mv)
      modifies this, players
      ensures players == old(players)
      ensures (State(), r) == PlayerMovesSpec(old(State()), token.user, mv)
    {
      var user := token.user;
      match mv {
        case None =>
          players.RemovePlayer(user.name);
          var next := players.AdvancePlayer();
          r := InvalidFormat(TurnFor(next, count));
        case Some(m) =>
          MakeMove(user, m);
          var next := players.AdvancePlayer();
          r := Ok(PlayerTurn(TurnToken(next.value), count));
      }
    }

    /** player_connected: the user joins the end of the rotation. */
    method PlayerConnected(user: User)
      modifies players
      ensures State() == old(State()).(rotation := old(players.players) + [user])
    {
      players.AddPlayer(user);
    }

    /** player_disconnected: the user leaves the rotation; the name must be in
      it, as the source unwraps its search. */
    method PlayerDisconnected(username: string)
      requires HasName(players.players, username)
      modifies players
      ensures State() == RemoveOn(old(State()), username)
    {
      players.RemovePlayer(username);
    }

    /** current_player_disconnected: the token's holder leaves and the turn goes
      on to whoever is next, if anyone. */
    method CurrentPlayerDisconnected(token: TurnToken) returns (next: Option<PlayerTurn<PlayerState>>)
      requires HasName(players.players, token.user.name)
      modifies players
      ensures (State(), next) == EliminateOn(old(State()), token.user.name)
    {
      players.RemovePlayer(token.user.name);
      var user := players.AdvancePlayer();
      next := TurnFor(user, count);
    }

    /** try_start_game: always hands out a turn; the rotation must not be empty. */
    method TryStartGame() returns (first: Option<PlayerTurn<PlayerState>>)
      requires players.players != []
      modifies players
      ensures first.Some? && (State(), first.value) == StartOn(old(State()))
    {
      var user := players.AdvancePlayer();
      first := Some(PlayerTurn(TurnToken(user.value), count));
    }
  }

  /** One well-formed move by the holder of `turn`, as a client of the engine
      sees it: the counter grows by `add` and the turn passes one position on. */
  method Play(game: Game, turn: PlayerTurn<PlayerState>, add: U32) returns (next: PlayerTurn<PlayerState>)
    requires game.players.players != []
    modifies game, game.players
    ensures game.players == old(game.players) && game.players.players == old(game.players.players)
    ensures game.count.num == WrappingAdd(old(game.count.num), add)
    ensures game.players.currentPlayerIndex == NextIndex(old(game.players.currentPlayerIndex), |game.players.players|)
    ensures next == PlayerTurn(TurnToken(game.players.players[game.players.currentPlayerIndex]), game.count)
  {
    var r := game.PlayerMoves(turn.token, Some(PlayerMove(add)));
    PlayerMovesOutcomes(old(game.State()), turn.token.user, Some(PlayerMove(add)));
    next := r.turn;
  }

  /** The two-player flow the server is exercised with: zeldo plays alone and is
      shown 0, 5 and 10; user2 joins; from then on the turn alternates and the
      players are shown 13, 13, 16, 17 and 19. Returns the counters shown, in
      order, and the users they were shown to. */
  method TwoPlayerFlow(zeldo: User, user2: User) returns (shown: seq<(string, U32)>)
    ensures shown == [(zeldo.name, 0), (zeldo.name, 5), (zeldo.name, 10),
                      (user2.name, 13), (zeldo.name, 13), (user2.name, 16),
                      (zeldo.name, 17), (user2.name, 19)]
  {
    var game := new Game();
    game.PlayerConnected(zeldo);
    var first := game.TryStartGame();
    var turn := first.value;
    assert game.State() == CounterState(PlayerState(0), [zeldo], 0) && turn.token.user == zeldo && turn.state.num == 0;
    var seen0 := (turn.token.user.name, turn.state.num);
    turn := Play(game, turn, 5);
    assert game.State() == CounterState(PlayerState(5), [zeldo], 0) && turn.token.user == zeldo && turn.state.num == 5;
    var seen1 := (turn.token.user.name, turn.state.num);
    turn := Play(game, turn, 5);
    assert game.State() == CounterState(PlayerState(10), [zeldo], 0) && turn.token.user == zeldo && turn.state.num == 10;
    var seen2 := (turn.token.user.name, turn.state.num);
    game.PlayerConnected(user2);
    assert game.State() == CounterState(PlayerState(10), [zeldo, user2], 0);
    turn := Play(game, turn, 3);
    assert game.State() == CounterState(PlayerState(13), [zeldo, user2], 1) && turn.token.user == user2 && turn.state.num == 13;
    var seen3 := (turn.token.user.name, turn.state.num);
    turn := Play(game, turn, 0);
    assert game.State() == CounterState(PlayerState(13), [zeldo, user2], 0) && turn.token.user == zeldo && turn.state.num == 13;
    var seen4 := (turn.token.user.name, turn.state.num);
    turn := Play(game, turn, 3);
    assert game.State() == CounterState(PlayerState(16), [zeldo, user2], 1) && turn.token.user == user2 && turn.state.num == 16;
    var seen5 := (turn.token.user.name, turn.state.num);
    turn := Play(game, turn, 1);
    assert game.State() == CounterState(PlayerState(17), [zeldo, user2], 0) && turn.token.user == zeldo && turn.state.num == 17;
    var seen6 := (turn.token.user.name, turn.state.num);
    turn := Play(game, turn, 2);
    assert game.State() == CounterState(PlayerState(19), [zeldo, user2], 1) && turn.token.user == user2 && turn.state.num == 19;
    var seen7 := (turn.token.user.name, turn.state.num);
    shown := [seen0, seen1, seen2, seen3, seen4, seen5, seen6, seen7];
  }
}
