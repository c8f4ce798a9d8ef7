/** The gomoku engine's own test games, replayed on the model: a board is
    described by the stones on it, moves are replayed with make_move, and the
    decisive moves are shown to come out as the tests expect. */
module GomokuScenarios {
  import opened Types
  import opened WinScan
  import opened Gomoku

  /** The coordinate a move names. */
  function Spot(m: PlayerMove): Coord {
    (m.x, m.y)
  }

  /** Who has a stone at `c` after the moves `placed`: the last move there. */
  function StoneAt(placed: seq<(User, PlayerMove)>, c: Coord): Option<User> {
    if placed == [] then None
    else if Spot(placed[|placed| - 1].1) == c then Some(placed[|placed| - 1].0)
    else StoneAt(placed[..|placed| - 1], c)
  }

  /** `b` holds exactly the stones that `placed` put down; every other cell on
      it is empty. */
  ghost predicate Shows(b: BoardState, placed: seq<(User, PlayerMove)>)
    requires b.Valid()
  {
    forall x: int, y: int :: At(b, x, y) ==
      match StoneAt(placed, (x, y))
      case Some(u) => Some(Occupied(u))
      case None => if InBounds(b, x, y) then Some(Empty) else None
  }

  /** make_move applied to each (player, move) in order; only the board is kept. */
  function Replay(b: BoardState, moves: seq<(User, PlayerMove)>): (r: BoardState)
    requires b.Valid()
    ensures r.Valid() && r.width == b.width && r.height == b.height
    decreases |moves|
  {
    if moves == [] then b
    else Replay(MakeMoveOn(b, moves[0].0, moves[0].1).0, moves[1..])
  }

  lemma EmptyBoardShowsNothing(w: nat, h: nat)
    ensures Shows(EmptyBoard(w, h), [])
  {
    var b := EmptyBoard(w, h);
    forall x: int, y: int
      ensures At(b, x, y) == if InBounds(b, x, y) then Some(Empty) else None
    {
      if InBounds(b, x, y) {
        CellIndexInRange(w, h, x, y);
      }
    }
  }

  /** Placing on an empty in-bounds cell adds exactly that stone. */
  lemma PlaceShows(b: BoardState, placed: seq<(User, PlayerMove)>, user: User, m: PlayerMove)
    requires b.Valid() && Shows(b, placed) && InBounds(b, m.x, m.y) && StoneAt(placed, Spot(m)) == None
    ensures Shows(Place(b, user, m.x, m.y), placed + [(user, m)])
  {
    var placed' := placed + [(user, m)];
    assert placed'[..|placed'| - 1] == placed;
    forall x': int, y': int
      ensures At(Place(b, user, m.x, m.y), x', y') ==
                match StoneAt(placed', (x', y'))
                case Some(u) => Some(Occupied(u))
                case None => if InBounds(b, x', y') then Some(Empty) else None
    {
      AtAfterPlace(b, user, m.x, m.y, x', y');
    }
  }

  /** The stone of a move that no later move overwrites is found. */
  lemma {:induction false} StoneAtFound(placed: seq<(User, PlayerMove)>, i: nat)
    requires i < |placed|
    requires forall j :: i < j < |placed| ==> Spot(placed[j].1) != Spot(placed[i].1)
    ensures StoneAt(placed, Spot(placed[i].1)) == Some(placed[i].0)
    decreases |placed|
  {
    if i < |placed| - 1 {
      var init := placed[..|placed| - 1];
      forall j | i < j < |init|
        ensures Spot(init[j].1) != Spot(init[i].1)
      {
        assert init[j] == placed[j];
      }
      StoneAtFound(init, i);
    }
  }

  /** A coordinate no move names holds no stone. */
  lemma {:induction false} StoneAtMissing(placed: seq<(User, PlayerMove)>, c: Coord)
    requires forall j :: 0 <= j < |placed| ==> Spot(placed[j].1) != c
    ensures StoneAt(placed, c) == None
    decreases |placed|
  {
    if placed != [] {
      var init := placed[..|placed| - 1];
      forall j | 0 <= j < |init|
        ensures Spot(init[j].1) != c
      {
        assert init[j] == placed[j];
      }
      StoneAtMissing(init, c);
    }
  }

  /** make_move on an empty cell with coordinates below 2^31 puts the stone there. */
  lemma MakeMoveOnPlaces(b: BoardState, user: User, m: PlayerMove)
    requires b.Valid() && m.x < 0x8000_0000 && m.y < 0x8000_0000
    requires At(b, m.x, m.y) == Some(Empty)
    ensures MakeMoveOn(b, user, m).0 == Place(b, user, m.x, m.y)
  {
    MakeMoveOnSpec(b, user, m);
  }

  /** One replayed move onto an empty in-bounds cell adds exactly its stone. */
  lemma ReplayStep(b: BoardState, placed: seq<(User, PlayerMove)>, user: User, m: PlayerMove)
    requires b.Valid() && b.width < 0x8000_0000 && b.height < 0x8000_0000 && Shows(b, placed)
    requires m.x < b.width && m.y < b.height && StoneAt(placed, Spot(m)) == None
    ensures Shows(MakeMoveOn(b, user, m).0, placed + [(user, m)])
  {
    assert At(b, m.x, m.y) == Some(Empty);
    MakeMoveOnPlaces(b, user, m);
    PlaceShows(b, placed, user, m);
  }

  /** A move elsewhere does not change who holds `c`. */
  lemma StoneAtAppendOther(placed: seq<(User, PlayerMove)>, user: User, m: PlayerMove, c: Coord)
    requires Spot(m) != c
    ensures StoneAt(placed + [(user, m)], c) == StoneAt(placed, c)
  {
    assert (placed + [(user, m)])[..|placed|] == placed;
  }

  lemma AppendOneThenRest<T>(s: seq<T>, x: T, rest: seq<T>)
    ensures (s + [x]) + rest == s + ([x] + rest)
  {
  }

  /** Replaying moves onto distinct empty in-bounds cells puts down exactly
      their stones. */
  lemma {:induction false} ReplayShows(b: BoardState, placed: seq<(User, PlayerMove)>, moves: seq<(User, PlayerMove)>)
    requires b.Valid() && b.width < 0x8000_0000 && b.height < 0x8000_0000 && Shows(b, placed)
    requires forall i :: 0 <= i < |moves| ==>
               moves[i].1.x < b.width && moves[i].1.y < b.height && StoneAt(placed, Spot(moves[i].1)) == None
    requires forall i, j :: 0 <= i < j < |moves| ==> Spot(moves[i].1) != Spot(moves[j].1)
    ensures Shows(Replay(b, moves), placed + moves)
    decreases |moves|
  {
    if moves == [] {
      assert placed + moves == placed;
    } else {
      var user, m, rest := moves[0].0, moves[0].1, moves[1..];
      ReplayStep(b, placed, user, m);
      var b' := MakeMoveOn(b, user, m).0;
      var placed' := placed + [(user, m)];
      forall i | 0 <= i < |rest|
        ensures rest[i].1.x < b'.width && rest[i].1.y < b'.height && StoneAt(placed', Spot(rest[i].1)) == None
      {
        assert rest[i] == moves[i + 1];
        StoneAtAppendOther(placed, user, m, Spot(rest[i].1));
      }
      forall i, j | 0 <= i < j < |rest|
        ensures Spot(rest[i].1) != Spot(rest[j].1)
      {
        assert rest[i] == moves[i + 1] && rest[j] == moves[j + 1];
      }
      ReplayShows(b', placed', rest);
      assert moves == [(user, m)] + rest;
      AppendOneThenRest(placed, (user, m), rest);
      assert Replay(b, moves) == Replay(b', rest);
    }
  }

  /** Placing the missing fifth stone of a line completes it: make_move wins. */
  lemma CompletingFourWins(b: BoardState, user: User, d: Direction, x: nat, y: nat, s: int)
    requires b.Valid() && x < 0x8000_0000 && y < 0x8000_0000
    requires At(b, x, y) == Some(Empty)
    requires 0 <= s <= 4
    requires forall k :: s <= k < s + 5 && k != 4 ==> At(b, StepX(d, x, k), StepY(d, y, k)) == Some(Occupied(user))
    ensures MakeMoveOn(b, user, PlayerMove(x, y)).1.MoveWin?
  {
    MakeMoveOnSpec(b, user, PlayerMove(x, y));
    var b' := Place(b, user, x, y);
    forall k | s <= k < s + 5
      ensures At(b', StepX(d, x, k), StepY(d, y, k)) == Some(Occupied(user))
    {
      AtAfterPlace(b, user, x, y, StepX(d, x, k), StepY(d, y, k));
    }
    assert FiveFrom(b', user, d, x, y, s);
    assert LineThrough(b', user, d, x, y);
  }

  /** Two cells of the window that are not the player's, one on each side of
      the centre and at most five apart, leave no room for five in a row. */
  lemma BlockedLine(b: BoardState, user: User, d: Direction, x: int, y: int, lo: int, hi: int)
    requires b.Valid() && 0 <= lo < 4 < hi <= 8 && hi - lo <= 5
    requires At(b, StepX(d, x, lo), StepY(d, y, lo)) != Some(Occupied(user))
    requires At(b, StepX(d, x, hi), StepY(d, y, hi)) != Some(Occupied(user))
    ensures !LineThrough(b, user, d, x, y)
  {
    forall s | 0 <= s <= 4
      ensures !FiveFrom(b, user, d, x, y, s)
    {
      if s <= lo {
        assert s <= lo < s + 5;
      } else {
        assert s <= hi < s + 5;
      }
    }
  }

  /** The boards the test games run on: at least the tests' 10 by 10, and
      small enough that coordinates survive `as i32`. */
  predicate TestSize(w: nat, h: nat) {
    10 <= w < 0x8000_0000 && 10 <= h < 0x8000_0000
  }

  /** Every move of `moves`, made on the board that replaying the moves
      before it from `b` leaves, is an ordinary move: what each `mov_ok` step
      of the tests asserts. */
  predicate AllOk(b: BoardState, moves: seq<(User, PlayerMove)>)
    requires b.Valid()
    decreases |moves|
  {
    moves == [] ||
    var init, last := moves[..|moves| - 1], moves[|moves| - 1];
    AllOk(b, init) && MakeMoveOn(Replay(b, init), last.0, last.1).1 == MoveOk
  }

  /** AllOk of a prefix grows by one when the next move is ordinary. */
  lemma AllOkExtend(b: BoardState, moves: seq<(User, PlayerMove)>, k: nat)
    requires b.Valid() && k < |moves| && AllOk(b, moves[..k])
    requires MakeMoveOn(Replay(b, moves[..k]), moves[k].0, moves[k].1).1 == MoveOk
    ensures AllOk(b, moves[..k + 1])
  {
    assert moves[..k + 1][..k] == moves[..k];
  }

  /** How many of the moves `placed` are `user`'s. */
  function Stones(placed: seq<(User, PlayerMove)>, user: User): nat {
    if placed == [] then 0
    else Stones(placed[..|placed| - 1], user) + (if placed[|placed| - 1].0 == user then 1 else 0)
  }

  /** A player never has more stones than there are moves. */
  lemma {:induction false} StonesAtMost(placed: seq<(User, PlayerMove)>, user: User)
    ensures Stones(placed, user) <= |placed|
    decreases |placed|
  {
    if placed != [] {
      StonesAtMost(placed[..|placed| - 1], user);
    }
  }

  /** A prefix of the moves holds no more of a player's stones than all of them. */
  lemma {:induction false} StonesPrefix(placed: seq<(User, PlayerMove)>, i: nat, user: User)
    requires i <= |placed|
    ensures Stones(placed[..i], user) <= Stones(placed, user)
    decreases |placed|
  {
    if i < |placed| {
      var init := placed[..|placed| - 1];
      assert init[..i] == placed[..i];
      StonesPrefix(init, i, user);
    } else {
      assert placed[..i] == placed;
    }
  }

  /** Cells that all hold `user`'s stone are at most as many as `user`'s moves. */
  lemma {:induction false} StonesCover(placed: seq<(User, PlayerMove)>, user: User, cells: set<Coord>)
    requires forall c :: c in cells ==> StoneAt(placed, c) == Some(user)
    ensures |cells| <= Stones(placed, user)
    decreases |placed|
  {
    if placed == [] {
      assert cells == {};
    } else {
      var init, last := placed[..|placed| - 1], placed[|placed| - 1];
      var rest := cells - {Spot(last.1)};
      StonesCover(init, user, rest);
      if Spot(last.1) in cells {
        assert cells == rest + {Spot(last.1)};
      } else {
        assert rest == cells;
      }
    }
  }

  /** Five in a row takes five stones: a player with fewer has no line. */
  lemma FewStonesNoLine(b: BoardState, placed: seq<(User, PlayerMove)>, user: User, x: int, y: int)
    requires b.Valid() && Shows(b, placed) && Stones(placed, user) < 5
    ensures !AnyLineThrough(b, user, x, y)
  {
    forall d: Direction, s | 0 <= s <= 4
      ensures !FiveFrom(b, user, d, x, y, s)
    {
      var c0, c1, c2 := (StepX(d, x, s), StepY(d, y, s)), (StepX(d, x, s + 1), StepY(d, y, s + 1)), (StepX(d, x, s + 2), StepY(d, y, s + 2));
      var c3, c4 := (StepX(d, x, s + 3), StepY(d, y, s + 3)), (StepX(d, x, s + 4), StepY(d, y, s + 4));
      var cells := {c0, c1, c2, c3, c4};
      if FiveFrom(b, user, d, x, y, s) {
        forall c | c in cells
          ensures StoneAt(placed, c) == Some(user)
        {
          assert At(b, c.0, c.1) == Some(Occupied(user));
        }
        assert |cells| == 5;
        StonesCover(placed, user, cells);
        assert false;
      }
    }
  }

  /** A move onto an empty cell of the test corner that makes no line, while
      another cell `e` stays empty, is an ordinary move that adds its stone. */
  lemma OkStep(b: BoardState, placed: seq<(User, PlayerMove)>, user: User, m: PlayerMove, e: Coord)
    requires b.Valid() && TestSize(b.width, b.height) && Shows(b, placed)
    requires m.x < 10 && m.y < 10 && StoneAt(placed, Spot(m)) == None
    requires 0 <= e.0 < 10 && 0 <= e.1 < 10 && e != Spot(m) && StoneAt(placed, e) == None
    requires !AnyLineThrough(Place(b, user, m.x, m.y), user, m.x, m.y)
    ensures MakeMoveOn(b, user, m) == (Place(b, user, m.x, m.y), MoveOk)
    ensures Shows(Place(b, user, m.x, m.y), placed + [(user, m)])
  {
    var b' := Place(b, user, m.x, m.y);
    PlaceShows(b, placed, user, m);
    StoneAtAppendOther(placed, user, m, e);
    assert At(b', e.0, e.1) == Some(Empty);
    IsFullEveryCoordinate(b');
    MakeMoveOnSpec(b, user, m);
  }

  /** Replaying, from an empty test board, moves on distinct cells of the
      corner that leave cell `e` empty and give nobody five stones: every
      prefix of the replay is all ordinary moves. */
  lemma {:induction false} PrefixesOk(w: nat, h: nat, moves: seq<(User, PlayerMove)>, k: nat, e: Coord)
    requires TestSize(w, h) && InCorner(moves) && OnDistinctCells(moves) && k <= |moves|
    requires forall i :: 0 <= i < |moves| ==> Stones(moves, moves[i].0) < 5
    requires 0 <= e.0 < 10 && 0 <= e.1 < 10 && forall i :: 0 <= i < |moves| ==> Spot(moves[i].1) != e
    ensures AllOk(EmptyBoard(w, h), moves[..k])
    decreases k
  {
    if k == 0 {
      assert moves[..k] == [];
    } else {
      PrefixesOk(w, h, moves, k - 1, e);
      PrefixStep(w, h, moves, k, e);
      AllOkExtend(EmptyBoard(w, h), moves, k - 1);
    }
  }

  /** The k-th move of PrefixesOk is ordinary. */
  lemma PrefixStep(w: nat, h: nat, moves: seq<(User, PlayerMove)>, k: nat, e: Coord)
    requires TestSize(w, h) && InCorner(moves) && OnDistinctCells(moves) && 0 < k <= |moves|
    requires Stones(moves, moves[k - 1].0) < 5
    requires 0 <= e.0 < 10 && 0 <= e.1 < 10 && forall i :: 0 <= i < |moves| ==> Spot(moves[i].1) != e
    ensures MakeMoveOn(Replay(EmptyBoard(w, h), moves[..k - 1]), moves[k - 1].0, moves[k - 1].1).1 == MoveOk
  {
    var init, user, m := moves[..k - 1], moves[k - 1].0, moves[k - 1].1;
    PrefixFits(moves, k - 1);
    StoneAtMissingPrefix(moves, k - 1, Spot(m));
    StoneAtMissingPrefix(moves, k - 1, e);
    StonesPrefix(moves, k, user);
    assert moves[..k] == init + [(user, m)];
    NextMoveOk(w, h, init, user, m, e);
  }

  /** A prefix of moves on distinct cells of the corner is one too. */
  lemma PrefixFits(moves: seq<(User, PlayerMove)>, n: nat)
    requires InCorner(moves) && OnDistinctCells(moves) && n <= |moves|
    ensures InCorner(moves[..n]) && OnDistinctCells(moves[..n])
  {
  }

  /** No move of a prefix is on `c` when no move of the whole is before it. */
  lemma StoneAtMissingPrefix(moves: seq<(User, PlayerMove)>, n: nat, c: Coord)
    requires n <= |moves| && forall j :: 0 <= j < n ==> Spot(moves[j].1) != c
    ensures StoneAt(moves[..n], c) == None
  {
    forall j | 0 <= j < n
      ensures Spot(moves[..n][j].1) != c
    {
    }
    StoneAtMissing(moves[..n], c);
  }

  /** The step of PrefixesOk: a move onto a fresh cell of the corner, giving
      its player at most four stones and leaving `e` empty, is ordinary. */
  lemma NextMoveOk(w: nat, h: nat, init: seq<(User, PlayerMove)>, user: User, m: PlayerMove, e: Coord)
    requires TestSize(w, h) && InCorner(init) && OnDistinctCells(init) && m.x < 10 && m.y < 10
    requires 0 <= e.0 < 10 && 0 <= e.1 < 10 && e != Spot(m)
    requires StoneAt(init, Spot(m)) == None && StoneAt(init, e) == None
    requires Stones(init + [(user, m)], user) < 5
    ensures MakeMoveOn(Replay(EmptyBoard(w, h), init), user, m).1 == MoveOk
  {
    ReplayFromEmpty(w, h, init);
    var b := Replay(EmptyBoard(w, h), init);
    PlaceShows(b, init, user, m);
    FewStonesNoLine(Place(b, user, m.x, m.y), init + [(user, m)], user, m.x, m.y);
    OkStep(b, init, user, m, e);
  }

  /** invalid_move_space_occupied: the first stone at (9, 5) is an ordinary
      move, and a second move on the same cell is invalid. */
  lemma SpaceOccupied(w: nat, h: nat, p1: User)
    requires TestSize(w, h)
    ensures var (b, first) := MakeMoveOn(EmptyBoard(w, h), p1, PlayerMove(9, 5));
            first == MoveOk && MakeMoveOn(b, p1, PlayerMove(9, 5)).1 == MoveInvalid
  {
    var b := LoneStone(w, h, p1);
    MakeMoveOnSpec(b, p1, PlayerMove(9, 5));
  }

  /** A first stone at (9, 5) on an empty test board is an ordinary move. */
  lemma LoneStone(w: nat, h: nat, p1: User) returns (b: BoardState)
    requires TestSize(w, h)
    ensures b.Valid() && MakeMoveOn(EmptyBoard(w, h), p1, PlayerMove(9, 5)) == (b, MoveOk)
    ensures At(b, 9, 5) == Some(Occupied(p1))
  {
    var b0 := EmptyBoard(w, h);
    EmptyBoardShowsNothing(w, h);
    MakeMoveOnSpec(b0, p1, PlayerMove(9, 5));
    b := Place(b0, p1, 9, 5);
    PlaceShows(b0, [], p1, PlayerMove(9, 5));
    assert At(b, 9, 9) == Some(Empty);
    IsFullEveryCoordinate(b);
    LoneStoneNoLine(b, p1);
  }

  /** A lone stone at (9, 5) with empty neighbours makes no line. */
  lemma LoneStoneNoLine(b: BoardState, p1: User)
    requires b.Valid() && TestSize(b.width, b.height) && Shows(b, [(p1, PlayerMove(9, 5))])
    ensures !AnyLineThrough(b, p1, 9, 5)
  {
    forall d: Direction, k | k == 3 || k == 5
      ensures At(b, StepX(d, 9, k), StepY(d, 5, k)) != Some(Occupied(p1))
    {
      var c := (StepX(d, 9, k), StepY(d, 5, k));
      assert c != (9, 5);
      assert StoneAt([(p1, PlayerMove(9, 5))], c) == StoneAt([], c);
    }
    BlockedLine(b, p1, Vertical, 9, 5, 3, 5);
    BlockedLine(b, p1, DownRight, 9, 5, 3, 5);
    BlockedLine(b, p1, Horizontal, 9, 5, 3, 5);
    BlockedLine(b, p1, UpRight, 9, 5, 3, 5);
  }

  /** A stone that no later move overwrites is on the replayed board. */
  lemma HasStone(b: BoardState, moves: seq<(User, PlayerMove)>, i: nat)
    requires b.Valid() && Shows(b, moves) && i < |moves|
    requires forall j :: i < j < |moves| ==> Spot(moves[j].1) != Spot(moves[i].1)
    ensures At(b, moves[i].1.x, moves[i].1.y) == Some(Occupied(moves[i].0))
  {
    StoneAtFound(moves, i);
  }

  /** The moves of normal_game before the decisive one. */
  function NormalGameMoves(p1: User, p2: User): seq<(User, PlayerMove)> {
    [ (p1, PlayerMove(5, 5)), (p2, PlayerMove(5, 6)),
      (p1, PlayerMove(6, 5)), (p2, PlayerMove(5, 7)),
      (p1, PlayerMove(7, 5)), (p2, PlayerMove(5, 8)),
      (p1, PlayerMove(8, 5)), (p2, PlayerMove(5, 9)) ]
  }

  /** Every move lies inside the top-left 10 by 10 corner. */
  predicate InCorner(moves: seq<(User, PlayerMove)>) {
    forall i :: 0 <= i < |moves| ==> moves[i].1.x < 10 && moves[i].1.y < 10
  }

  /** No two moves name the same cell. */
  predicate OnDistinctCells(moves: seq<(User, PlayerMove)>) {
    forall i, j :: 0 <= i < j < |moves| ==> Spot(moves[i].1) != Spot(moves[j].1)
  }

  /** Replaying moves onto distinct cells of an empty board shows exactly
      their stones. */
  lemma ReplayFromEmpty(w: nat, h: nat, moves: seq<(User, PlayerMove)>)
    requires TestSize(w, h) && InCorner(moves) && OnDistinctCells(moves)
    ensures Shows(Replay(EmptyBoard(w, h), moves), moves)
  {
    var b := EmptyBoard(w, h);
    EmptyBoardShowsNothing(w, h);
    forall i | 0 <= i < |moves|
      ensures moves[i].1.x < b.width && moves[i].1.y < b.height && StoneAt([], Spot(moves[i].1)) == None
    {
    }
    ReplayShows(b, [], moves);
    assert [] + moves == moves;
  }

  lemma NormalGameMovesFit(p1: User, p2: User)
    ensures InCorner(NormalGameMoves(p1, p2)) && OnDistinctCells(NormalGameMoves(p1, p2))
  {
  }

  lemma StreakMovesFit(p1: User, p2: User)
    ensures InCorner(StreakMoves(p1, p2)) && OnDistinctCells(StreakMoves(p1, p2))
  {
  }

  /** What a board showing the moves of normal_game holds around (9, 5). */
  lemma NormalGameFacts(b: BoardState, p1: User, p2: User)
    requires b.Valid() && TestSize(b.width, b.height) && Shows(b, NormalGameMoves(p1, p2))
    ensures At(b, 5, 5) == Some(Occupied(p1)) && At(b, 6, 5) == Some(Occupied(p1))
    ensures At(b, 7, 5) == Some(Occupied(p1)) && At(b, 8, 5) == Some(Occupied(p1))
    ensures At(b, 9, 5) == Some(Empty)
  {
    var moves := NormalGameMoves(p1, p2);
    HasStone(b, moves, 0);
    HasStone(b, moves, 2);
    HasStone(b, moves, 4);
    HasStone(b, moves, 6);
    forall j | 0 <= j < |moves|
      ensures Spot(moves[j].1) != (9, 5)
    {
    }
    StoneAtMissing(moves, (9, 5));
  }

  /** Each player of normal_game places four stones. */
  lemma NormalGameStones(p1: User, p2: User)
    requires p1 != p2
    ensures forall i :: 0 <= i < |NormalGameMoves(p1, p2)| ==>
              Stones(NormalGameMoves(p1, p2), NormalGameMoves(p1, p2)[i].0) < 5
  {
    var moves := NormalGameMoves(p1, p2);
    forall u | u == p1 || u == p2
      ensures Stones(moves, u) < 5
    {
      StonesPrefixStep(moves, u, 0);
      StonesPrefixStep(moves, u, 1);
      StonesPrefixStep(moves, u, 2);
      StonesPrefixStep(moves, u, 3);
      StonesPrefixStep(moves, u, 4);
      StonesPrefixStep(moves, u, 5);
      StonesPrefixStep(moves, u, 6);
      StonesPrefixStep(moves, u, 7);
      assert moves[..8] == moves;
    }
  }

  /** Stones counted one move further. */
  lemma StonesPrefixStep(placed: seq<(User, PlayerMove)>, user: User, i: nat)
    requires i < |placed|
    ensures Stones(placed[..i + 1], user) == Stones(placed[..i], user) + (if placed[i].0 == user then 1 else 0)
  {
    assert placed[..i + 1][..i] == placed[..i];
  }

  /** normal_game: player 1 builds (5..8, 5) while player 2 builds (5, 6..9),
      every one of those moves being ordinary; player 1 at (9, 5) then
      completes a horizontal five. The vertical and down-right windows hold no
      line, so the horizontal window reports its ends (5, 5) and (9, 5). */
  lemma NormalGame(w: nat, h: nat, p1: User, p2: User)
    requires TestSize(w, h) && p1 != p2
    ensures AllOk(EmptyBoard(w, h), NormalGameMoves(p1, p2))
    ensures MakeMoveOn(Replay(EmptyBoard(w, h), NormalGameMoves(p1, p2)), p1, PlayerMove(9, 5)).1 == MoveWin(((5, 5), (9, 5)))
  {
    var moves := NormalGameMoves(p1, p2);
    NormalGameMovesFit(p1, p2);
    NormalGameStones(p1, p2);
    PrefixesOk(w, h, moves, |moves|, (9, 9));
    assert moves[..|moves|] == moves;
    ReplayFromEmpty(w, h, moves);
    NormalGameEnds(Replay(EmptyBoard(w, h), moves), p1, p2);
  }

  /** On a board showing the moves of normal_game, player 1 at (9, 5) wins with
      the ends (5, 5) and (9, 5). */
  lemma NormalGameEnds(b: BoardState, p1: User, p2: User)
    requires b.Valid() && TestSize(b.width, b.height) && Shows(b, NormalGameMoves(p1, p2))
    ensures MakeMoveOn(b, p1, PlayerMove(9, 5)).1 == MoveWin(((5, 5), (9, 5)))
  {
    var m := PlayerMove(9, 5);
    NormalGameLines(b, p1, p2);
    var b' := Place(b, p1, 9, 5);
    CheckForWinAroundSpec(b', p1, 9, 5);
    var c := CheckForWinAround(b', 9, 5).coords;
    assert MakeMoveOn(b, p1, m).1 == MoveWin(c);
    var win := Window(b', Horizontal, 9, 5);
    var s: nat, e: nat :| MaximalRun(win, s, e) && e - s >= 5 && c == (CoordOf(win[s]), CoordOf(win[e - 1]));
    FirstFiveRun(win, s, e);
  }

  /** What player 1's stone at (9, 5) makes on a board showing normal_game:
      no vertical or down-right line, a horizontal line, and (10, 5) is not
      theirs. */
  lemma NormalGameLines(b: BoardState, p1: User, p2: User)
    requires b.Valid() && TestSize(b.width, b.height) && Shows(b, NormalGameMoves(p1, p2))
    ensures At(b, 9, 5) == Some(Empty)
    ensures var b' := Place(b, p1, 9, 5);
            && !LineThrough(b', p1, Vertical, 9, 5) && !LineThrough(b', p1, DownRight, 9, 5)
            && LineThrough(b', p1, Horizontal, 9, 5)
            && At(b', 9, 5) == Some(Occupied(p1)) && At(b', 10, 5) != Some(Occupied(p1))
  {
    var moves := NormalGameMoves(p1, p2);
    NormalGameFacts(b, p1, p2);
    var m := PlayerMove(9, 5);
    var placed := moves + [(p1, m)];
    StoneAtMissing(moves, (9, 5));
    PlaceShows(b, moves, p1, m);
    var b' := Place(b, p1, 9, 5);
    forall c | c in {(9, 4), (9, 6), (8, 4), (10, 6), (10, 5)}
      ensures At(b', c.0, c.1) != Some(Occupied(p1))
    {
      forall j | 0 <= j < |placed|
        ensures Spot(placed[j].1) != c
      {
      }
      StoneAtMissing(placed, c);
    }
    forall k | 0 <= k < 5
      ensures At(b', StepX(Horizontal, 9, k), StepY(Horizontal, 5, k)) == Some(Occupied(p1))
    {
      AtAfterPlace(b, p1, 9, 5, StepX(Horizontal, 9, k), StepY(Horizontal, 5, k));
      assert k in {0, 1, 2, 3, 4};
    }
    assert FiveFrom(b', p1, Horizontal, 9, 5, 0);
    BlockedLine(b', p1, Vertical, 9, 5, 3, 5);
    BlockedLine(b', p1, DownRight, 9, 5, 3, 5);
  }

  /** A maximal run of at least five in a nine-cell window whose sixth cell
      differs from its fifth is the first five cells. */
  lemma FirstFiveRun(win: seq<Probe>, s: nat, e: nat)
    requires |win| == 9 && MaximalRun(win, s, e) && e - s >= 5
    requires win[5].cell != win[4].cell
    ensures s == 0 && e == 5
  {
    assert win[4].cell == win[s].cell;
  }

  /** The moves of different_players_dont_streak before its last two. */
  function StreakMoves(p1: User, p2: User): seq<(User, PlayerMove)> {
    seq(8, j requires 0 <= j < 8 => (if j == 4 then p2 else p1, PlayerMove(j, 0)))
  }

  /** What a board showing the moves of different_players_dont_streak and then
      player 1 at (8, 0) holds on and around row 0. */
  lemma StreakFacts(b: BoardState, p1: User, p2: User)
    requires b.Valid() && TestSize(b.width, b.height)
    requires Shows(b, StreakMoves(p1, p2) + [(p1, PlayerMove(8, 0))])
    ensures At(b, 4, 0) == Some(Occupied(p2))
    ensures forall x | 5 <= x <= 8 :: At(b, x, 0) == Some(Occupied(p1))
    ensures At(b, 9, 0) == Some(Empty) && At(b, 9, 9) == Some(Empty)
    ensures forall x | 7 <= x <= 9 :: At(b, x, -1) == None && At(b, x, 1) == Some(Empty)
  {
    var moves := StreakMoves(p1, p2) + [(p1, PlayerMove(8, 0))];
    HasStone(b, moves, 4);
    HasStone(b, moves, 5);
    HasStone(b, moves, 6);
    HasStone(b, moves, 7);
    HasStone(b, moves, 8);
    forall x | 5 <= x <= 8
      ensures At(b, x, 0) == Some(Occupied(p1))
    {
      assert x in {5, 6, 7, 8};
    }
    forall c | c in {(9, 0), (9, 9), (7, 1), (8, 1), (9, 1)}
      ensures StoneAt(moves, c) == None
    {
      forall j | 0 <= j < |moves|
        ensures Spot(moves[j].1) != c
      {
      }
      StoneAtMissing(moves, c);
    }
    forall x | 7 <= x <= 9
      ensures At(b, x, -1) == None && At(b, x, 1) == Some(Empty)
    {
      assert (x, 1) in {(9, 0), (9, 9), (7, 1), (8, 1), (9, 1)};
    }
  }

  /** different_players_dont_streak: with another player's stone at (4, 0),
      player 1's eight stones on row 0 are no five in a row, so (8, 0) is an
      ordinary move; (9, 0) then completes (5..9, 0). */
  lemma DifferentPlayersDontStreak(w: nat, h: nat, p1: User, p2: User)
    requires TestSize(w, h) && p1 != p2
    ensures AllOk(EmptyBoard(w, h), StreakMoves(p1, p2))
    ensures var (b, eighth) := MakeMoveOn(Replay(EmptyBoard(w, h), StreakMoves(p1, p2)), p1, PlayerMove(8, 0));
            eighth == MoveOk && MakeMoveOn(b, p1, PlayerMove(9, 0)).1.MoveWin?
  {
    var moves := StreakMoves(p1, p2);
    StreakMovesFit(p1, p2);
    StreakAllOk(w, h, p1, p2);
    ReplayFromEmpty(w, h, moves);
    var b0 := Replay(EmptyBoard(w, h), moves);
    EighthMove(b0, p1, p2);
  }

  /** The moves of different_players_dont_streak: player 1 on (j, 0) for every
      j below 8 except 4, where player 2 plays. */
  lemma StreakShape(p1: User, p2: User)
    ensures |StreakMoves(p1, p2)| == 8
    ensures forall j :: 0 <= j < 8 ==>
              StreakMoves(p1, p2)[j] == (if j == 4 then p2 else p1, PlayerMove(j, 0))
  {
  }

  /** A player never has as many stones as there are moves when one move is
      somebody else's. */
  lemma {:induction false} StonesMissOne(placed: seq<(User, PlayerMove)>, user: User, i: nat)
    requires i < |placed| && placed[i].0 != user
    ensures Stones(placed, user) < |placed|
    decreases |placed|
  {
    var init := placed[..|placed| - 1];
    if i == |placed| - 1 {
      StonesAtMost(init, user);
    } else {
      assert init[i] == placed[i];
      StonesMissOne(init, user, i);
    }
  }

  /** The first five moves of different_players_dont_streak, four of player 1
      and one of player 2, are ordinary. */
  lemma StreakFirstOk(w: nat, h: nat, p1: User, p2: User)
    requires TestSize(w, h) && p1 != p2
    ensures AllOk(EmptyBoard(w, h), StreakMoves(p1, p2)[..5])
  {
    var first := StreakMoves(p1, p2)[..5];
    StreakShape(p1, p2);
    StonesMissOne(first, p1, 4);
    StonesMissOne(first, p2, 0);
    PrefixesOk(w, h, first, 5, (9, 9));
    assert first[..5] == first;
  }

  /** Player 1's stones on (5, 0), (6, 0) and (7, 0) of different_players_dont_streak:
      with player 2 at (4, 0), an empty cell after the stone and row 1 empty,
      none makes a line, so each is an ordinary move. */
  lemma StreakStep(w: nat, h: nat, p1: User, p2: User, k: nat)
    requires TestSize(w, h) && p1 != p2 && 5 <= k <= 7
    ensures StreakMoves(p1, p2)[k] == (p1, PlayerMove(k, 0))
    ensures MakeMoveOn(Replay(EmptyBoard(w, h), StreakMoves(p1, p2)[..k]), p1, PlayerMove(k, 0)).1 == MoveOk
  {
    var moves := StreakMoves(p1, p2);
    StreakShape(p1, p2);
    StreakMovesFit(p1, p2);
    var init := moves[..k];
    assert InCorner(init) && OnDistinctCells(init);
    ReplayFromEmpty(w, h, init);
    var b := Replay(EmptyBoard(w, h), init);
    StreakBoardStep(b, init, p1, p2, k);
  }

  /** StreakStep on any board showing the first k moves. */
  lemma StreakBoardStep(b: BoardState, init: seq<(User, PlayerMove)>, p1: User, p2: User, k: nat)
    requires b.Valid() && TestSize(b.width, b.height) && Shows(b, init)
    requires p1 != p2 && 5 <= k <= 7 && |init| == k
    requires forall j :: 0 <= j < k ==> init[j] == (if j == 4 then p2 else p1, PlayerMove(j, 0))
    ensures MakeMoveOn(b, p1, PlayerMove(k, 0)).1 == MoveOk
  {
    var m := PlayerMove(k, 0);
    var placed := init + [(p1, m)];
    forall c: Coord | c.0 >= k - 1 && (c.1 == 1 || (c.1 == 0 && c.0 >= k) || c == (9, 9))
      ensures StoneAt(init, c) == None
    {
      forall j | 0 <= j < |init|
        ensures Spot(init[j].1) != c
      {
      }
      StoneAtMissing(init, c);
    }
    PlaceShows(b, init, p1, m);
    var b' := Place(b, p1, k, 0);
    forall c: Coord | (c.0 >= k - 1 && c.1 == 1) || c == (k + 1, 0)
      ensures StoneAt(placed, c) == None
    {
      StoneAtAppendOther(init, p1, m, c);
    }
    assert At(b', k + 1, 0) == Some(Empty);
    assert At(b', k - 1, 1) == Some(Empty);
    assert At(b', k + 1, 1) == Some(Empty);
    assert At(b', k, 1) == Some(Empty);
    forall j | 4 < j < |placed|
      ensures Spot(placed[j].1) != Spot(placed[4].1)
    {
    }
    HasStone(b', placed, 4);
    StreakNoLine(b', p1, p2, k);
    OkStep(b, init, p1, m, (9, 9));
  }

  /** Player 2 at (4, 0), the cell after (k, 0) and the three cells below it
      empty: a stone of player 1 at (k, 0) on row 0 makes no line. */
  lemma StreakNoLine(b: BoardState, p1: User, p2: User, k: nat)
    requires b.Valid() && p1 != p2 && 5 <= k <= 7
    requires At(b, 4, 0) == Some(Occupied(p2))
    requires At(b, k + 1, 0) == Some(Empty)
    requires At(b, k - 1, 1) == Some(Empty) && At(b, k, 1) == Some(Empty) && At(b, k + 1, 1) == Some(Empty)
    ensures !AnyLineThrough(b, p1, k, 0)
  {
    BlockedLine(b, p1, Vertical, k, 0, 3, 5);
    BlockedLine(b, p1, DownRight, k, 0, 3, 5);
    BlockedLine(b, p1, Horizontal, k, 0, 8 - k, 5);
    BlockedLine(b, p1, UpRight, k, 0, 3, 5);
  }

  /** Every move of different_players_dont_streak is ordinary. */
  lemma StreakAllOk(w: nat, h: nat, p1: User, p2: User)
    requires TestSize(w, h) && p1 != p2
    ensures AllOk(EmptyBoard(w, h), StreakMoves(p1, p2))
  {
    var moves := StreakMoves(p1, p2);
    StreakShape(p1, p2);
    StreakFirstOk(w, h, p1, p2);
    StreakSnoc(w, h, p1, p2, 5);
    StreakSnoc(w, h, p1, p2, 6);
    StreakSnoc(w, h, p1, p2, 7);
    assert moves[..8] == moves;
  }

  /** One more move of StreakAllOk. */
  lemma StreakSnoc(w: nat, h: nat, p1: User, p2: User, k: nat)
    requires TestSize(w, h) && p1 != p2 && 5 <= k <= 7
    requires AllOk(EmptyBoard(w, h), StreakMoves(p1, p2)[..k])
    ensures AllOk(EmptyBoard(w, h), StreakMoves(p1, p2)[..k + 1])
  {
    var moves := StreakMoves(p1, p2);
    StreakStep(w, h, p1, p2, k);
    AllOkExtend(EmptyBoard(w, h), moves, k);
  }

  /** The last two moves of different_players_dont_streak on a board showing
      its first eight. */
  lemma EighthMove(b0: BoardState, p1: User, p2: User)
    requires b0.Valid() && TestSize(b0.width, b0.height) && p1 != p2
    requires Shows(b0, StreakMoves(p1, p2))
    ensures var (b, eighth) := MakeMoveOn(b0, p1, PlayerMove(8, 0));
            eighth == MoveOk && MakeMoveOn(b, p1, PlayerMove(9, 0)).1.MoveWin?
  {
    var moves := StreakMoves(p1, p2);
    forall j | 0 <= j < |moves|
      ensures Spot(moves[j].1) != (8, 0)
    {
    }
    StoneAtMissing(moves, (8, 0));
    PlaceShows(b0, moves, p1, PlayerMove(8, 0));
    var b := Place(b0, p1, 8, 0);
    EighthLeavesNoLine(b, p1, p2);
    MakeMoveOnSpec(b0, p1, PlayerMove(8, 0));
    NinthWins(b, p1, p2);
  }

  /** After player 1's stone at (8, 0) there is no five through it, and the
      board is not full. */
  lemma EighthLeavesNoLine(b: BoardState, p1: User, p2: User)
    requires b.Valid() && TestSize(b.width, b.height) && p1 != p2
    requires Shows(b, StreakMoves(p1, p2) + [(p1, PlayerMove(8, 0))])
    ensures !AnyLineThrough(b, p1, 8, 0) && !IsFull(b)
  {
    StreakFacts(b, p1, p2);
    IsFullEveryCoordinate(b);
    BlockedLine(b, p1, Vertical, 8, 0, 3, 5);
    BlockedLine(b, p1, DownRight, 8, 0, 3, 5);
    BlockedLine(b, p1, Horizontal, 8, 0, 0, 5);
    BlockedLine(b, p1, UpRight, 8, 0, 3, 5);
  }

  /** Then player 1 at (9, 0) completes (5..9, 0). */
  lemma NinthWins(b: BoardState, p1: User, p2: User)
    requires b.Valid() && TestSize(b.width, b.height)
    requires Shows(b, StreakMoves(p1, p2) + [(p1, PlayerMove(8, 0))])
    ensures MakeMoveOn(b, p1, PlayerMove(9, 0)).1.MoveWin?
  {
    StreakFacts(b, p1, p2);
    forall k | 0 <= k < 5 && k != 4
      ensures At(b, StepX(Horizontal, 9, k), StepY(Horizontal, 0, k)) == Some(Occupied(p1))
    {
    }
    CompletingFourWins(b, p1, Horizontal, 9, 0, 0);
  }

  /** The window position of the i-th of four stones placed on s..s+4 around
      the centre (position 4), in window order or, with `rev`, backwards. */
  function Slot(s: int, rev: bool, i: int): (k: int)
    requires 0 <= s <= 4 && 0 <= i < 4
    ensures s <= k < s + 5 && k != 4
  {
    var j := if rev then 3 - i else i;
    if s + j < 4 then s + j else s + j + 1
  }

  /** Slot names a different window position for each stone. */
  lemma SlotInjective(s: int, rev: bool, i: int, j: int)
    requires 0 <= s <= 4 && 0 <= i < j < 4
    ensures Slot(s, rev, i) != Slot(s, rev, j)
  {
  }

  /** Slot reaches every window position other than the centre. */
  lemma SlotOnto(s: int, rev: bool, k: int) returns (i: int)
    requires 0 <= s <= 4 && s <= k < s + 5 && k != 4
    ensures 0 <= i < 4 && Slot(s, rev, i) == k
  {
    var j := if k < 4 then k - s else k - s - 1;
    i := if rev then 3 - j else j;
  }

  /** `user`'s stones on the window cells s..s+4 other than the centre. */
  function FourMoves(user: User, d: Direction, x: int, y: int, s: int, rev: bool): (moves: seq<(User, PlayerMove)>)
    requires 0 <= s <= 4
    requires forall k :: s <= k < s + 5 ==> 0 <= StepX(d, x, k) && 0 <= StepY(d, y, k)
    ensures |moves| == 4
  {
    seq(4, i requires 0 <= i < 4 =>
      (user, PlayerMove(StepX(d, x, Slot(s, rev, i)), StepY(d, y, Slot(s, rev, i)))))
  }

  /** A board showing FourMoves has the four stones and an empty centre. */
  lemma FourFacts(b: BoardState, user: User, d: Direction, x: nat, y: nat, s: int, rev: bool)
    requires b.Valid() && 0 <= s <= 4
    requires forall k :: s <= k < s + 5 ==> 0 <= StepX(d, x, k) < 10 && 0 <= StepY(d, y, k) < 10
    requires TestSize(b.width, b.height) && Shows(b, FourMoves(user, d, x, y, s, rev))
    ensures At(b, x, y) == Some(Empty)
    ensures forall k :: s <= k < s + 5 && k != 4 ==> At(b, StepX(d, x, k), StepY(d, y, k)) == Some(Occupied(user))
  {
    var moves := FourMoves(user, d, x, y, s, rev);
    forall k | s <= k < s + 5 && k != 4
      ensures At(b, StepX(d, x, k), StepY(d, y, k)) == Some(Occupied(user))
    {
      var i := SlotOnto(s, rev, k);
      assert Spot(moves[i].1) == (StepX(d, x, k), StepY(d, y, k));
      forall j | i < j < 4
        ensures Spot(moves[j].1) != Spot(moves[i].1)
      {
        SlotInjective(s, rev, i, j);
      }
      HasStone(b, moves, i);
    }
    forall i | 0 <= i < 4
      ensures Spot(moves[i].1) != (x, y)
    {
      assert Slot(s, rev, i) != 4;
    }
    assert StepX(d, x, 4) == x && StepY(d, y, 4) == y && s <= 4 < s + 5;
    StoneAtMissing(moves, (x, y));
  }

  /** Four of `user`'s stones in a line, then the fifth at the centre of the
      window, on an otherwise empty board: the fifth wins. */
  /** The four stones of FourThenFifth lie on distinct cells. */
  lemma FourMovesDistinct(user: User, d: Direction, x: nat, y: nat, s: int, rev: bool)
    requires 0 <= s <= 4
    requires forall k :: s <= k < s + 5 ==> 0 <= StepX(d, x, k) && 0 <= StepY(d, y, k)
    ensures OnDistinctCells(FourMoves(user, d, x, y, s, rev))
  {
    var moves := FourMoves(user, d, x, y, s, rev);
    forall i, j | 0 <= i < j < 4
      ensures Spot(moves[i].1) != Spot(moves[j].1)
    {
      SlotInjective(s, rev, i, j);
    }
  }

  /** The four stones of FourThenFifth are ordinary moves. */
  lemma FourMovesOk(w: nat, h: nat, user: User, d: Direction, x: nat, y: nat, s: int, rev: bool)
    requires TestSize(w, h)
    requires 0 <= s <= 4
    requires forall k :: s <= k < s + 5 ==> 0 <= StepX(d, x, k) < 10 && 0 <= StepY(d, y, k) < 10
    ensures AllOk(EmptyBoard(w, h), FourMoves(user, d, x, y, s, rev))
  {
    var moves := FourMoves(user, d, x, y, s, rev);
    FourMovesDistinct(user, d, x, y, s, rev);
    assert InCorner(moves);
    forall i | 0 <= i < 4
      ensures Stones(moves, moves[i].0) < 5
    {
      StonesAtMost(moves, moves[i].0);
    }
    // Window cells lie within four columns of each other, so (9, 9) and
    // (0, 9) are never both among them.
    var e: Coord := if exists i :: 0 <= i < 4 && Spot(moves[i].1) == (9, 9) then (0, 9) else (9, 9);
    forall i | 0 <= i < 4
      ensures Spot(moves[i].1) != e
    {
    }
    PrefixesOk(w, h, moves, 4, e);
    assert moves[..4] == moves;
  }

  lemma FourThenFifth(w: nat, h: nat, user: User, d: Direction, x: nat, y: nat, s: int, rev: bool)
    requires TestSize(w, h)
    requires 0 <= s <= 4
    requires forall k :: s <= k < s + 5 ==> 0 <= StepX(d, x, k) < 10 && 0 <= StepY(d, y, k) < 10
    ensures AllOk(EmptyBoard(w, h), FourMoves(user, d, x, y, s, rev))
    ensures MakeMoveOn(Replay(EmptyBoard(w, h), FourMoves(user, d, x, y, s, rev)), user, PlayerMove(x, y)).1.MoveWin?
  {
    var moves := FourMoves(user, d, x, y, s, rev);
    FourMovesDistinct(user, d, x, y, s, rev);
    FourMovesOk(w, h, user, d, x, y, s, rev);
    ReplayFromEmpty(w, h, moves);
    var b := Replay(EmptyBoard(w, h), moves);
    FourFacts(b, user, d, x, y, s, rev);
    CompletingFourWins(b, user, d, x, y, s);
  }

  lemma WinRightMoves(p1: User)
    ensures FourMoves(p1, Horizontal, 4, 0, 0, false) == [
      (p1, PlayerMove(0, 0)), (p1, PlayerMove(1, 0)),
      (p1, PlayerMove(2, 0)), (p1, PlayerMove(3, 0))]
  {
    assert FourMoves(p1, Horizontal, 4, 0, 0, false)[0] == (p1, PlayerMove(0, 0));
    assert FourMoves(p1, Horizontal, 4, 0, 0, false)[1] == (p1, PlayerMove(1, 0));
    assert FourMoves(p1, Horizontal, 4, 0, 0, false)[2] == (p1, PlayerMove(2, 0));
    assert FourMoves(p1, Horizontal, 4, 0, 0, false)[3] == (p1, PlayerMove(3, 0));
  }

  /** win_right: four stones on row 0 and the fifth at (4, 0) win. */
  lemma WinRight(w: nat, h: nat, p1: User)
    requires TestSize(w, h)
    ensures AllOk(EmptyBoard(w, h), [
              (p1, PlayerMove(0, 0)), (p1, PlayerMove(1, 0)),
              (p1, PlayerMove(2, 0)), (p1, PlayerMove(3, 0))])
    ensures MakeMoveOn(Replay(EmptyBoard(w, h), [
              (p1, PlayerMove(0, 0)), (p1, PlayerMove(1, 0)),
              (p1, PlayerMove(2, 0)), (p1, PlayerMove(3, 0))]), p1, PlayerMove(4, 0)).1.MoveWin?
  {
    WinRightMoves(p1);
    FourThenFifth(w, h, p1, Horizontal, 4, 0, 0, false);
  }

  lemma WinDownMoves(p1: User)
    ensures FourMoves(p1, Vertical, 0, 4, 0, false) == [
      (p1, PlayerMove(0, 0)), (p1, PlayerMove(0, 1)),
      (p1, PlayerMove(0, 2)), (p1, PlayerMove(0, 3))]
  {
    assert FourMoves(p1, Vertical, 0, 4, 0, false)[0] == (p1, PlayerMove(0, 0));
    assert FourMoves(p1, Vertical, 0, 4, 0, false)[1] == (p1, PlayerMove(0, 1));
    assert FourMoves(p1, Vertical, 0, 4, 0, false)[2] == (p1, PlayerMove(0, 2));
    assert FourMoves(p1, Vertical, 0, 4, 0, false)[3] == (p1, PlayerMove(0, 3));
  }

  /** win_down: four stones in column 0 and the fifth at (0, 4) win. */
  lemma WinDown(w: nat, h: nat, p1: User)
    requires TestSize(w, h)
    ensures AllOk(EmptyBoard(w, h), [
              (p1, PlayerMove(0, 0)), (p1, PlayerMove(0, 1)),
              (p1, PlayerMove(0, 2)), (p1, PlayerMove(0, 3))])
    ensures MakeMoveOn(Replay(EmptyBoard(w, h), [
              (p1, PlayerMove(0, 0)), (p1, PlayerMove(0, 1)),
              (p1, PlayerMove(0, 2)), (p1, PlayerMove(0, 3))]), p1, PlayerMove(0, 4)).1.MoveWin?
  {
    WinDownMoves(p1);
    FourThenFifth(w, h, p1, Vertical, 0, 4, 0, false);
  }

  lemma WinDownRightMoves(p1: User)
    ensures FourMoves(p1, DownRight, 4, 4, 0, false) == [
      (p1, PlayerMove(0, 0)), (p1, PlayerMove(1, 1)),
      (p1, PlayerMove(2, 2)), (p1, PlayerMove(3, 3))]
  {
    assert FourMoves(p1, DownRight, 4, 4, 0, false)[0] == (p1, PlayerMove(0, 0));
    assert FourMoves(p1, DownRight, 4, 4, 0, false)[1] == (p1, PlayerMove(1, 1));
    assert FourMoves(p1, DownRight, 4, 4, 0, false)[2] == (p1, PlayerMove(2, 2));
    assert FourMoves(p1, DownRight, 4, 4, 0, false)[3] == (p1, PlayerMove(3, 3));
  }

  /** win_down_right: four stones on the diagonal and the fifth at (4, 4) win. */
  lemma WinDownRight(w: nat, h: nat, p1: User)
    requires TestSize(w, h)
    ensures AllOk(EmptyBoard(w, h), [
              (p1, PlayerMove(0, 0)), (p1, PlayerMove(1, 1)),
              (p1, PlayerMove(2, 2)), (p1, PlayerMove(3, 3))])
    ensures MakeMoveOn(Replay(EmptyBoard(w, h), [
              (p1, PlayerMove(0, 0)), (p1, PlayerMove(1, 1)),
              (p1, PlayerMove(2, 2)), (p1, PlayerMove(3, 3))]), p1, PlayerMove(4, 4)).1.MoveWin?
  {
    WinDownRightMoves(p1);
    FourThenFifth(w, h, p1, DownRight, 4, 4, 0, false);
  }

  lemma WinDownLeftMoves(p1: User)
    ensures FourMoves(p1, UpRight, 0, 5, 4, true) == [
      (p1, PlayerMove(4, 1)), (p1, PlayerMove(3, 2)),
      (p1, PlayerMove(2, 3)), (p1, PlayerMove(1, 4))]
  {
    assert FourMoves(p1, UpRight, 0, 5, 4, true)[0] == (p1, PlayerMove(4, 1));
    assert FourMoves(p1, UpRight, 0, 5, 4, true)[1] == (p1, PlayerMove(3, 2));
    assert FourMoves(p1, UpRight, 0, 5, 4, true)[2] == (p1, PlayerMove(2, 3));
    assert FourMoves(p1, UpRight, 0, 5, 4, true)[3] == (p1, PlayerMove(1, 4));
  }

  /** win_down_left: four stones on the anti-diagonal from (4, 1) and the fifth
      at (0, 5) win. */
  lemma WinDownLeft(w: nat, h: nat, p1: User)
    requires TestSize(w, h)
    ensures AllOk(EmptyBoard(w, h), [
              (p1, PlayerMove(4, 1)), (p1, PlayerMove(3, 2)),
              (p1, PlayerMove(2, 3)), (p1, PlayerMove(1, 4))])
    ensures MakeMoveOn(Replay(EmptyBoard(w, h), [
              (p1, PlayerMove(4, 1)), (p1, PlayerMove(3, 2)),
              (p1, PlayerMove(2, 3)), (p1, PlayerMove(1, 4))]), p1, PlayerMove(0, 5)).1.MoveWin?
  {
    WinDownLeftMoves(p1);
    FourThenFifth(w, h, p1, UpRight, 0, 5, 4, true);
  }
}
