/** The five-in-a-row board as a value, and the win scan that the engine runs
    around a freshly placed stone: four nine-cell windows centred on the stone,
    each grouped into runs of equal cells, the longest run winning at length 5. */
module WinScan {
  import opened Types

  datatype Cell = Empty | Occupied(user: User)

  /** A snapshot of the board: `cells` row by row, `width` cells to a row. */
  datatype BoardState = BoardState(cells: seq<Cell>, width: nat, height: nat)
  {
    predicate Valid() {
      |cells| == width * height
    }
  }

  type Coord = (int, int)

  /** The first and last coordinates of a winning run. */
  type FirstAndLast = (Coord, Coord)

  /** What placing a stone gives on the board itself. */
  datatype PlaceResult = PlaceOk | PlaceWin(coords: FirstAndLast) | PlaceInvalid

  /** The source converts usize coordinates with `as i32`, which keeps the low 32
      bits as a two's-complement number. */
  function AsI32(n: nat): (r: int)
    ensures -0x8000_0000 <= r < 0x8000_0000 && r <= n
    ensures (r - n) % 0x1_0000_0000 == 0
    ensures n < 0x8000_0000 ==> r == n
  {
    var m := n % 0x1_0000_0000;
    if m < 0x8000_0000 then m else m - 0x1_0000_0000
  }

  /** The bounds test of `at`: the board's dimensions are compared as i32 too. */
  predicate InBounds(b: BoardState, x: int, y: int) {
    0 <= x < AsI32(b.width) && 0 <= y < AsI32(b.height)
  }

  /** Row-major positions of in-bounds coordinates lie inside the cell list. */
  lemma CellIndexInRange(w: nat, h: nat, x: nat, y: nat)
    requires x < w && y < h
    ensures y * w + x < w * h
  {
    assert y * w + x < y * w + w == (y + 1) * w;
    assert (y + 1) * w <= h * w;
  }

  /** Row-major positions are ordered by row first. */
  lemma RowMajorOrdered(w: nat, x: nat, y: nat, x': nat, y': nat)
    requires x < w
    ensures y < y' ==> y * w + x < y' * w + x'
  {
    if y < y' {
      assert y * w + x < (y + 1) * w;
      assert (y + 1) * w <= y' * w;
    }
  }

  /** Distinct in-bounds coordinates have distinct row-major positions. */
  lemma CellIndexInjective(w: nat, x: nat, y: nat, x': nat, y': nat)
    requires x < w && x' < w
    ensures y * w + x == y' * w + x' ==> x == x' && y == y'
  {
    RowMajorOrdered(w, x, y, x', y');
    RowMajorOrdered(w, x', y', x, y);
  }

  /** The cell at (x, y), or None off the board. */
  function At(b: BoardState, x: int, y: int): (c: Option<Cell>)
    requires b.Valid()
    ensures c.None? <==> !InBounds(b, x, y)
  {
    if x < 0 || y < 0 || x >= AsI32(b.width) || y >= AsI32(b.height) then None
    else
      CellIndexInRange(b.width, b.height, x, y);
      Some(b.cells[y * b.width + x])
  }

  /** The board with the in-bounds cell (x, y) set to `user`'s stone. */
  function Place(b: BoardState, user: User, x: int, y: int): (r: BoardState)
    requires b.Valid() && InBounds(b, x, y)
    ensures r.Valid() && r.width == b.width && r.height == b.height
  {
    CellIndexInRange(b.width, b.height, x, y);
    b.(cells := b.cells[y * b.width + x := Occupied(user)])
  }

  /** Placing changes exactly the one cell: (x, y) now holds the stone and every
      other coordinate reads as before. */
  lemma AtAfterPlace(b: BoardState, user: User, x: int, y: int, x': int, y': int)
    requires b.Valid() && InBounds(b, x, y)
    ensures At(Place(b, user, x, y), x', y') ==
            if x' == x && y' == y then Some(Occupied(user)) else At(b, x', y')
  {
    if InBounds(b, x', y') {
      PlacedCell(b, user, x, y, x', y');
    }
  }

  /** AtAfterPlace for an in-bounds coordinate, on row-major positions. */
  lemma PlacedCell(b: BoardState, user: User, x: nat, y: nat, x': nat, y': nat)
    requires b.Valid() && InBounds(b, x, y) && InBounds(b, x', y')
    ensures At(Place(b, user, x, y), x', y') ==
            if x' == x && y' == y then Some(Occupied(user)) else At(b, x', y')
  {
    if x' == x && y' == y {
      PlacedSame(b, user, x, y);
    } else {
      PlacedOther(b, user, x, y, x', y');
    }
  }

  lemma PlacedSame(b: BoardState, user: User, x: nat, y: nat)
    requires b.Valid() && InBounds(b, x, y)
    ensures At(Place(b, user, x, y), x, y) == Some(Occupied(user))
  {
    AtIndex(Place(b, user, x, y), x, y);
    PlaceCells(b, user, x, y);
  }

  lemma PlacedOther(b: BoardState, user: User, x: nat, y: nat, x': nat, y': nat)
    requires b.Valid() && InBounds(b, x, y) && InBounds(b, x', y')
    requires x' != x || y' != y
    ensures At(Place(b, user, x, y), x', y') == At(b, x', y')
  {
    var w := b.width;
    CellIndexInjective(w, x, y, x', y');
    var i, i' := y * w + x, y' * w + x';
    assert i != i';
    AtIndex(b, x', y');
    var b' := Place(b, user, x, y);
    PlaceCells(b, user, x, y);
    assert b'.width == w && b'.cells[i'] == b.cells[i'];
    AtIndex(b', x', y');
    assert y' * b'.width + x' == i';
    assert At(b', x', y') == Some(b.cells[i']);
  }

  /** Placing writes the stone at the cell's row-major position. */
  lemma PlaceCells(b: BoardState, user: User, x: nat, y: nat)
    requires b.Valid() && InBounds(b, x, y)
    ensures y * b.width + x < |b.cells|
    ensures Place(b, user, x, y).cells == b.cells[y * b.width + x := Occupied(user)]
  {
    CellIndexInRange(b.width, b.height, x, y);
  }

  /** An in-bounds cell read through `at` is the cell at its row-major position. */
  lemma AtIndex(b: BoardState, x: nat, y: nat)
    requires b.Valid() && InBounds(b, x, y)
    ensures y * b.width + x < |b.cells| && At(b, x, y) == Some(b.cells[y * b.width + x])
  {
    CellIndexInRange(b.width, b.height, x, y);
  }

  /** A board of `w` by `h` empty cells. */
  function EmptyBoard(w: nat, h: nat): (b: BoardState)
    ensures b.Valid() && b.width == w && b.height == h
  {
    BoardState(seq(w * h, _ => Empty), w, h)
  }

  /** is_full: no cell of the board is empty. */
  predicate IsFull(b: BoardState) {
    forall k :: 0 <= k < |b.cells| ==> b.cells[k] != Empty
  }

  /** Cancelling a positive factor keeps a strict order. */
  lemma MulLessCancel(a: int, h: int, w: nat)
    requires w > 0
    ensures a * w < h * w ==> a < h
  {
    if a >= h {
      assert a * w >= h * w;
    }
  }

  /** Every position of a w-by-h cell list is the row-major position of an
      in-bounds coordinate. */
  lemma RowMajorSurjective(k: nat, w: nat, h: nat)
    requires k < w * h
    ensures w > 0 && k % w < w && k / w < h && k == (k / w) * w + k % w
  {
    assert w > 0;
    var x, y := k % w, k / w;
    assert k == y * w + x;
    assert y * w <= k;
    MulLessCancel(y, h, w);
  }

  /** The board is full exactly when every coordinate on it holds a stone. */
  lemma IsFullEveryCoordinate(b: BoardState)
    requires b.Valid() && b.width < 0x8000_0000 && b.height < 0x8000_0000
    ensures IsFull(b) <==> forall x, y :: InBounds(b, x, y) ==> At(b, x, y) != Some(Empty)
  {
    if IsFull(b) {
      FullEveryCoordinate(b);
    } else {
      var k :| 0 <= k < |b.cells| && b.cells[k] == Empty;
      EmptyCellCoordinate(b, k);
    }
  }

  lemma FullEveryCoordinate(b: BoardState)
    requires b.Valid() && IsFull(b)
    ensures forall x, y :: InBounds(b, x, y) ==> At(b, x, y) != Some(Empty)
  {
    forall x, y | InBounds(b, x, y)
      ensures At(b, x, y) != Some(Empty)
    {
      AtIndex(b, x, y);
    }
  }

  /** An empty cell of the list is an in-bounds coordinate reading Empty. */
  lemma EmptyCellCoordinate(b: BoardState, k: nat)
    requires b.Valid() && b.width < 0x8000_0000 && b.height < 0x8000_0000
    requires k < |b.cells| && b.cells[k] == Empty
    ensures InBounds(b, k % b.width, k / b.width) && At(b, k % b.width, k / b.width) == Some(Empty)
  {
    RowMajorSurjective(k, b.width, b.height);
    var x, y := k % b.width, k / b.width;
    assert InBounds(b, x, y);
    AtIndex(b, x, y);
  }

  // ---------------------------------------------------------------------------
  // The iterator pipeline of range_contains_win: zip the coordinates, look each
  // cell up, group consecutive equal cells, keep the longest group.

  /** One looked-up cell of a window: the cell (None off the board) and where it is. */
  datatype Probe = Probe(cell: Option<Cell>, x: int, y: int)

  function CoordOf(p: Probe): Coord {
    (p.x, p.y)
  }

  /** The integers lo, lo + 1, ..., lo + n - 1. */
  function Span(lo: int, n: nat): (r: seq<int>)
    ensures |r| == n && forall k :: 0 <= k < n ==> r[k] == lo + k
  {
    seq(n, k => lo + k)
  }

  /** `v`, n times. */
  function Repeat(v: int, n: nat): (r: seq<int>)
    ensures |r| == n && forall k :: 0 <= k < n ==> r[k] == v
  {
    seq(n, _ => v)
  }

  function Reverse(s: seq<int>): (r: seq<int>)
    ensures |r| == |s| && forall k :: 0 <= k < |s| ==> r[k] == s[|s| - 1 - k]
  {
    seq(|s|, k requires 0 <= k < |s| => s[|s| - 1 - k])
  }

  /** zip(xs, ys) with each coordinate looked up on the board. */
  function Probes(b: BoardState, xs: seq<int>, ys: seq<int>): (ps: seq<Probe>)
    requires b.Valid()
    ensures |ps| == if |xs| <= |ys| then |xs| else |ys|
    ensures forall k :: 0 <= k < |ps| ==> ps[k] == Probe(At(b, xs[k], ys[k]), xs[k], ys[k])
  {
    var n := if |xs| <= |ys| then |xs| else |ys|;
    seq(n, k requires 0 <= k < n => Probe(At(b, xs[k], ys[k]), xs[k], ys[k]))
  }

  /** The four line orientations, in the order the scan tries them. */
  datatype Direction = Vertical | DownRight | Horizontal | UpRight

  /** Column of the k-th cell of a window centred on column x. */
  function StepX(d: Direction, x: int, k: int): int {
    if d.Vertical? then x else x - 4 + k
  }

  /** Row of the k-th cell of a window centred on row y; the anti-diagonal runs
      with y descending. */
  function StepY(d: Direction, y: int, k: int): int {
    match d
    case Vertical => y - 4 + k
    case DownRight => y - 4 + k
    case Horizontal => y
    case UpRight => y + 4 - k
  }

  /** The nine-cell window through (x, y) in direction `d`: four cells back, the
      centre, four cells forward. */
  function Window(b: BoardState, d: Direction, x: int, y: int): (w: seq<Probe>)
    requires b.Valid()
    ensures |w| == 9
    ensures forall k :: 0 <= k < 9 ==>
              w[k] == Probe(At(b, StepX(d, x, k), StepY(d, y, k)), StepX(d, x, k), StepY(d, y, k))
  {
    match d
    case Vertical => Probes(b, Repeat(x, 9), Span(y - 4, 9))
    case DownRight => Probes(b, Span(x - 4, 9), Span(y - 4, 9))
    case Horizontal => Probes(b, Span(x - 4, 9), Repeat(y, 9))
    case UpRight => Probes(b, Span(x - 4, 9), Reverse(Span(y - 4, 9)))
  }

  /** All cells of `g` are equal. */
  predicate SameCell(g: seq<Probe>) {
    forall j :: 0 <= j < |g| ==> g[j].cell == g[0].cell
  }

  function Concat(gs: seq<seq<Probe>>): seq<Probe> {
    if gs == [] then [] else gs[0] + Concat(gs[1..])
  }

  /** `gs` cuts `ps` into non-empty runs of equal cells, and neighbouring runs
      differ: each run is as long as it can be. */
  predicate IsRunPartition(gs: seq<seq<Probe>>, ps: seq<Probe>) {
    && Concat(gs) == ps
    && (forall i :: 0 <= i < |gs| ==> gs[i] != [] && SameCell(gs[i]))
    && (forall i :: 0 <= i < |gs| - 1 ==> gs[i][0].cell != gs[i + 1][0].cell)
  }

  /** group_by on the looked-up cell: consecutive probes with equal cells go
      into one group. */
  function GroupByCell(ps: seq<Probe>): (gs: seq<seq<Probe>>)
    ensures IsRunPartition(gs, ps)
  {
    if ps == [] then []
    else
      var rest := GroupByCell(ps[1..]);
      assert ps == [ps[0]] + ps[1..];
      if rest != [] && rest[0][0].cell == ps[0].cell then
        assert Concat(rest) == rest[0] + Concat(rest[1..]);
        assert ([[ps[0]] + rest[0]] + rest[1..])[1..] == rest[1..];
        [[ps[0]] + rest[0]] + rest[1..]
      else
        assert ([[ps[0]]] + rest)[1..] == rest;
        [[ps[0]]] + rest
  }

  /** max_by on group length: the position of a longest group, the LAST one
      when several are equally long. */
  function LongestGroup(gs: seq<seq<Probe>>): (m: nat)
    requires gs != []
    ensures m < |gs|
    ensures forall j :: 0 <= j < |gs| ==> |gs[j]| <= |gs[m]|
    ensures forall j :: m < j < |gs| ==> |gs[j]| < |gs[m]|
  {
    if |gs| == 1 then 0
    else
      var m := LongestGroup(gs[..|gs| - 1]);
      if |gs[m]| <= |gs[|gs| - 1]| then |gs| - 1 else m
  }

  /** range_contains_win: the first and last coordinates of the longest group,
      when that group holds at least five probes. */
  function RangeContainsWin(ps: seq<Probe>): Option<FirstAndLast> {
    var gs := GroupByCell(ps);
    if gs == [] then None
    else
      var g := gs[LongestGroup(gs)];
      if |g| >= 5 then Some((CoordOf(g[0]), CoordOf(g[|g| - 1]))) else None
  }

  /** ps[s..s+n] holds one cell value throughout. */
  predicate RunAt(ps: seq<Probe>, s: nat, n: nat)
    requires s + n <= |ps|
  {
    forall j :: s <= j < s + n ==> ps[j].cell == ps[s].cell
  }

  /** Some n consecutive probes of `ps` hold the same cell value. */
  predicate HasRun(ps: seq<Probe>, n: nat) {
    exists s: nat :: s + n <= |ps| && RunAt(ps, s, n)
  }

  /** ps[s..e] is a run that cannot be extended on either side. */
  predicate MaximalRun(ps: seq<Probe>, s: nat, e: nat) {
    && s < e <= |ps|
    && RunAt(ps, s, e - s)
    && (s == 0 || ps[s - 1].cell != ps[s].cell)
    && (e == |ps| || ps[e].cell != ps[s].cell)
  }

  /** Dropping the first run of a partition leaves a partition of the rest. */
  lemma PartitionTail(gs: seq<seq<Probe>>, ps: seq<Probe>)
    requires IsRunPartition(gs, ps) && gs != []
    ensures ps == gs[0] + Concat(gs[1..])
    ensures IsRunPartition(gs[1..], Concat(gs[1..]))
    ensures |gs| > 1 ==> |ps| > |gs[0]| && ps[|gs[0]|] == gs[1][0]
  {
    if |gs| > 1 {
      assert Concat(gs[1..]) == gs[1] + Concat(gs[2..]);
    }
  }

  /** Every group of a partition is a maximal run of `ps`, sitting right after
      the groups before it. */
  lemma {:induction false} GroupIsMaximalRun(gs: seq<seq<Probe>>, ps: seq<Probe>, i: nat)
    requires IsRunPartition(gs, ps)
    requires i < |gs|
    ensures var s := |Concat(gs[..i])|;
            s + |gs[i]| <= |ps| && ps[s..s + |gs[i]|] == gs[i] && MaximalRun(ps, s, s + |gs[i]|)
  {
    PartitionTail(gs, ps);
    var rest := Concat(gs[1..]);
    var L := |gs[0]|;
    if i == 0 {
      assert gs[..0] == [];
      assert ps[0..L] == gs[0];
      assert RunAt(ps, 0, L);
    } else {
      GroupIsMaximalRun(gs[1..], rest, i - 1);
      var s' := |Concat(gs[1..][..i - 1])|;
      var e' := s' + |gs[i]|;
      assert gs[..i] == [gs[0]] + gs[1..][..i - 1];
      assert Concat(gs[..i]) == gs[0] + Concat(gs[1..][..i - 1]);
      var s, e := L + s', L + e';
      ShiftedRun(gs[0], rest, s', e');
      if i == 1 {
        assert gs[1..][..0] == [];
        assert ps[s - 1] == gs[0][L - 1];
        assert ps[s] == gs[1][0];
      } else {
        assert gs[1..][..i - 1][0] == gs[1];
        assert Concat(gs[1..][..i - 1]) == gs[1] + Concat(gs[1..][..i - 1][1..]);
        assert s' > 0;
        assert ps[s - 1] == rest[s' - 1];
      }
    }
  }

  /** A run of `rest` that ends at a change of cell, seen inside `g0 + rest`. */
  lemma ShiftedRun(g0: seq<Probe>, rest: seq<Probe>, s': nat, e': nat)
    requires s' < e' <= |rest| && RunAt(rest, s', e' - s')
    requires e' == |rest| || rest[e'].cell != rest[s'].cell
    ensures var ps, s, e := g0 + rest, |g0| + s', |g0| + e';
            && ps[s..e] == rest[s'..e'] && RunAt(ps, s, e - s) && ps[s] == rest[s']
            && (e == |ps| || ps[e].cell != ps[s].cell)
            && (s' > 0 ==> ps[s - 1] == rest[s' - 1])
  {
    var ps, L := g0 + rest, |g0|;
    var s, e := L + s', L + e';
    assert ps[s..e] == rest[s'..e'];
    forall j | s <= j < e
      ensures ps[j].cell == ps[s].cell
    {
      assert ps[j] == rest[j - L];
    }
    if e < |ps| {
      assert ps[e] == rest[e'];
    }
  }

  /** A run of n equal cells lies inside a single group, so some group is at
      least n long. */
  lemma {:induction false} RunInsideGroup(gs: seq<seq<Probe>>, ps: seq<Probe>, s: nat, n: nat) returns (i: nat)
    requires IsRunPartition(gs, ps)
    requires 0 < n && s + n <= |ps| && RunAt(ps, s, n)
    ensures i < |gs| && |gs[i]| >= n
  {
    assert gs != [];
    PartitionTail(gs, ps);
    var rest := Concat(gs[1..]);
    var L := |gs[0]|;
    if s < L {
      if L < |ps| {
        assert ps[s] == gs[0][s];
        assert ps[L].cell != ps[s].cell;
      }
      i := 0;
    } else {
      forall j | s - L <= j < s - L + n
        ensures rest[j].cell == rest[s - L].cell
      {
        assert rest[j] == ps[j + L];
      }
      var i' := RunInsideGroup(gs[1..], rest, s - L, n);
      i := i' + 1;
    }
  }

  /** When some five consecutive probes hold one cell, the longest group is at
      least five long, so the scan of the window reports a win. */
  lemma RunMakesRangeWin(ps: seq<Probe>)
    requires HasRun(ps, 5)
    ensures RangeContainsWin(ps).Some?
  {
    var gs := GroupByCell(ps);
    var s: nat :| s + 5 <= |ps| && RunAt(ps, s, 5);
    var i := RunInsideGroup(gs, ps, s, 5);
    var m := LongestGroup(gs);
    assert |gs[m]| >= |gs[i]|;
  }

  /** A reported win names the two ends of a maximal run of at least five. */
  lemma RangeWinEnds(ps: seq<Probe>)
    requires RangeContainsWin(ps).Some?
    ensures exists s: nat, e: nat :: MaximalRun(ps, s, e) && e - s >= 5 &&
              RangeContainsWin(ps).value == (CoordOf(ps[s]), CoordOf(ps[e - 1]))
  {
    var gs := GroupByCell(ps);
    var m := LongestGroup(gs);
    var g := gs[m];
    GroupIsMaximalRun(gs, ps, m);
    var s := |Concat(gs[..m])|;
    var e := s + |g|;
    assert g[0] == ps[s] && g[|g| - 1] == ps[e - 1];
    assert MaximalRun(ps, s, e);
  }

  /** The scan of one window, stated without the pipeline: it reports a win
      exactly when five consecutive probes hold the same cell, and then it
      reports the two ends of a maximal run of at least five. */
  lemma RangeContainsWinSpec(ps: seq<Probe>)
    ensures RangeContainsWin(ps).Some? <==> HasRun(ps, 5)
    ensures RangeContainsWin(ps).Some? ==>
              exists s: nat, e: nat :: MaximalRun(ps, s, e) && e - s >= 5 &&
                RangeContainsWin(ps).value == (CoordOf(ps[s]), CoordOf(ps[e - 1]))
  {
    if HasRun(ps, 5) {
      RunMakesRangeWin(ps);
    }
    if RangeContainsWin(ps).Some? {
      RangeWinEnds(ps);
      var s: nat, e: nat :| MaximalRun(ps, s, e) && e - s >= 5;
      assert RunAt(ps, s, 5);
    }
  }

  /** A run of five inside a nine-cell window always covers the centre cell. */
  lemma RunCoversCentre(ps: seq<Probe>, s: nat)
    requires |ps| == 9 && s + 5 <= 9 && RunAt(ps, s, 5)
    ensures s <= 4 < s + 5 && ps[s].cell == ps[4].cell
  {
  }

  /** check_for_win_around: the windows in the order vertical, down-right,
      horizontal, anti-diagonal; the first that reports a win decides. */
  function CheckForWinAround(b: BoardState, x: int, y: int): PlaceResult
    requires b.Valid()
  {
    var v := RangeContainsWin(Window(b, Vertical, x, y));
    var dr := RangeContainsWin(Window(b, DownRight, x, y));
    var h := RangeContainsWin(Window(b, Horizontal, x, y));
    var ur := RangeContainsWin(Window(b, UpRight, x, y));
    var found := if v.Some? then v else if dr.Some? then dr else if h.Some? then h else ur;
    if found.Some? then PlaceWin(found.value) else PlaceOk
  }

  /** `user` owns the five cells k = s .. s+4 of the window through (x, y) in
      direction `d`. */
  ghost predicate FiveFrom(b: BoardState, user: User, d: Direction, x: int, y: int, s: int)
    requires b.Valid()
  {
    forall k :: s <= k < s + 5 ==> At(b, StepX(d, x, k), StepY(d, y, k)) == Some(Occupied(user))
  }

  /** `user` has five in a row through (x, y) in direction `d`. */
  ghost predicate LineThrough(b: BoardState, user: User, d: Direction, x: int, y: int)
    requires b.Valid()
  {
    exists s :: 0 <= s <= 4 && FiveFrom(b, user, d, x, y, s)
  }

  /** `coords` are the ends of a maximal run of at least five in the window
      through (x, y) in direction `d`. */
  ghost predicate WinningEnds(b: BoardState, d: Direction, x: int, y: int, coords: FirstAndLast)
    requires b.Valid()
  {
    var w := Window(b, d, x, y);
    exists s: nat, e: nat :: MaximalRun(w, s, e) && e - s >= 5 && coords == (CoordOf(w[s]), CoordOf(w[e - 1]))
  }

  /** The window in direction `d` reports a win exactly when the owner of the
      centre cell has five in a row through it in that direction. */
  lemma WindowWinIffLine(b: BoardState, user: User, d: Direction, x: int, y: int)
    requires b.Valid() && At(b, x, y) == Some(Occupied(user))
    ensures RangeContainsWin(Window(b, d, x, y)).Some? <==> LineThrough(b, user, d, x, y)
  {
    RangeContainsWinSpec(Window(b, d, x, y));
    if HasRun(Window(b, d, x, y), 5) {
      RunGivesLine(b, user, d, x, y);
    }
    if LineThrough(b, user, d, x, y) {
      LineGivesRun(b, user, d, x, y);
    }
  }

  /** Five equal cells in the window are five stones of the centre's owner. */
  lemma RunGivesLine(b: BoardState, user: User, d: Direction, x: int, y: int)
    requires b.Valid() && At(b, x, y) == Some(Occupied(user))
    requires HasRun(Window(b, d, x, y), 5)
    ensures LineThrough(b, user, d, x, y)
  {
    var w := Window(b, d, x, y);
    assert w[4].cell == Some(Occupied(user));
    var s: nat :| s + 5 <= |w| && RunAt(w, s, 5);
    RunCoversCentre(w, s);
    assert FiveFrom(b, user, d, x, y, s);
  }

  /** Five stones in a row through the centre are a run of the window. */
  lemma LineGivesRun(b: BoardState, user: User, d: Direction, x: int, y: int)
    requires b.Valid()
    requires LineThrough(b, user, d, x, y)
    ensures HasRun(Window(b, d, x, y), 5)
  {
    var w := Window(b, d, x, y);
    var s :| 0 <= s <= 4 && FiveFrom(b, user, d, x, y, s);
    assert w[s].cell == Some(Occupied(user));
    assert RunAt(w, s, 5);
  }

  /** `user` has five in a row through (x, y) in at least one direction. */
  ghost predicate AnyLineThrough(b: BoardState, user: User, x: int, y: int)
    requires b.Valid()
  {
    || LineThrough(b, user, Vertical, x, y)
    || LineThrough(b, user, DownRight, x, y)
    || LineThrough(b, user, Horizontal, x, y)
    || LineThrough(b, user, UpRight, x, y)
  }

  /** The scan around a stone of `user` at (x, y) reports a win exactly when
      `user` has five in a row through (x, y) in one of the four directions.
      The reported coordinates are the ends of a maximal run of at least five
      in the first direction, in the order vertical, down-right, horizontal,
      anti-diagonal, in which `user` has such a line. */
  lemma CheckForWinAroundSpec(b: BoardState, user: User, x: int, y: int)
    requires b.Valid() && At(b, x, y) == Some(Occupied(user))
    ensures CheckForWinAround(b, x, y) != PlaceInvalid
    ensures CheckForWinAround(b, x, y).PlaceWin? <==> AnyLineThrough(b, user, x, y)
    ensures CheckForWinAround(b, x, y).PlaceWin? ==>
              var c := CheckForWinAround(b, x, y).coords;
              var v := LineThrough(b, user, Vertical, x, y);
              var dr := LineThrough(b, user, DownRight, x, y);
              var h := LineThrough(b, user, Horizontal, x, y);
              && (v ==> WinningEnds(b, Vertical, x, y, c))
              && (!v && dr ==> WinningEnds(b, DownRight, x, y, c))
              && (!v && !dr && h ==> WinningEnds(b, Horizontal, x, y, c))
              && (!v && !dr && !h ==> WinningEnds(b, UpRight, x, y, c))
  {
    WindowWinIffLine(b, user, Vertical, x, y);
    WindowWinIffLine(b, user, DownRight, x, y);
    WindowWinIffLine(b, user, Horizontal, x, y);
    WindowWinIffLine(b, user, UpRight, x, y);
    RangeContainsWinSpec(Window(b, Vertical, x, y));
    RangeContainsWinSpec(Window(b, DownRight, x, y));
    RangeContainsWinSpec(Window(b, Horizontal, x, y));
    RangeContainsWinSpec(Window(b, UpRight, x, y));
  }
}
