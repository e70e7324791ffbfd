// The board engine: mine placement with a safe first click, neighbour counting,
// flood-fill reveal, chorded reveal and the win test.

module MinesweeperLogic {
  import opened Types
  import opened Constants
  import opened Grid

  // ---------------------------------------------------------------------------
  // Board generation
  // ---------------------------------------------------------------------------

  /** floor(width * height * density), with the density as a whole percentage. */
  function MineCount(settings: GameSettings): (n: nat)
    ensures n + 1 < SizeConfig(settings.size).width * SizeConfig(settings.size).height
  {
    var d := SizeConfig(settings.size);
    d.width * d.height * DifficultyConfig(settings.difficulty) / 100
  }

  lemma MineCountTable()
    ensures MineCount(GameSettings(Small, Easy)) == 8
    ensures MineCount(GameSettings(Small, Normal)) == 12
    ensures MineCount(GameSettings(Small, Hard)) == 16
    ensures MineCount(GameSettings(Medium, Easy)) == 25
    ensures MineCount(GameSettings(Medium, Normal)) == 38
    ensures MineCount(GameSettings(Medium, Hard)) == 51
    ensures MineCount(GameSettings(Large, Easy)) == 48
    ensures MineCount(GameSettings(Large, Normal)) == 72
    ensures MineCount(GameSettings(Large, Hard)) == 96
  {
  }

  /** The number of mines among the in-bounds neighbours of `p`. */
  function MinesAround(b: Board, p: Pos): nat
  {
    |Marked(b, p, IsMine)|
  }

  /** Every safe cell carries the number of mines around it. */
  ghost predicate CountsCorrect(b: Board)
  {
    forall q {:trigger MinesAround(b, q)} | In(b, q) && !At(b, q).isMine :: At(b, q).neighborCount == MinesAround(b, q)
  }

  /** Every cell records its own position. */
  ghost predicate Coordinates(b: Board)
  {
    forall q | In(b, q) :: At(b, q).x == q.x && At(b, q).y == q.y
  }

  /** Scans the up-to-8 neighbours of (x, y) on a w x h board and counts the mines. */
  method CountMines(b: Board, x: int, y: int, w: int, h: int) returns (count: nat)
    requires IsGrid(b, w, h)
    ensures count == MinesAround(b, Pos(x, y))
    ensures count <= 8
  {
    var p := Pos(x, y);
    count := 0;
    for dy := -1 to 2
      invariant count == ScanCount(b, p, IsMine, dy, -1)
    {
      for dx := -1 to 2
        invariant count == ScanCount(b, p, IsMine, dy, dx)
      {
        count := CountMinesCell(b, x, y, w, h, dy, dx, count);
        ScanUnfold(b, p, IsMine, dy, dx);
      }
    }
    ScanMinesAround(b, p);
  }

  /** The body of the inner loop at offset (dx, dy): an in-bounds mine other than (x, y) itself
      adds one to `n`; that is, exactly what the scan counts at this offset. */
  method CountMinesCell(b: Board, x: int, y: int, w: int, h: int, dy: int, dx: int, n: nat) returns (count: nat)
    requires IsGrid(b, w, h)
    ensures count == n + Tally(b, Pos(x, y), IsMine, dy, dx)
  {
    count := n;
    VisitsBounds(b, Pos(x, y), dy, dx);
    if dx == 0 && dy == 0 {
      return;
    }
    var nx, ny := x + dx, y + dy;
    if nx >= 0 && nx < w && ny >= 0 && ny < h && b[ny][nx].isMine {
      count := count + 1;
    }
  }

  /** The whole scan counts the mines around `p`, at most 8. */
  lemma ScanMinesAround(b: Board, p: Pos)
    ensures ScanCount(b, p, IsMine, 2, -1) == MinesAround(b, p) <= 8
  {
    ScanCountAll(b, p, IsMine);
    MarkedAtMostEight(b, p, IsMine);
  }

  /** Every sampled coordinate lies on the board, as Math.floor(Math.random() * n) does. */
  predicate RollsInRange(settings: GameSettings, rolls: seq<Pos>)
  {
    var d := SizeConfig(settings.size);
    forall k | 0 <= k < |rolls| :: 0 <= rolls[k].x < d.width && 0 <= rolls[k].y < d.height
  }

  /** The distinct sampled coordinates that the placement loop may turn into mines. */
  function Candidates(rolls: seq<Pos>, firstClick: Option<Pos>): set<Pos>
  {
    set q | q in rolls && Some(q) != firstClick
  }

  /** The random source yields enough distinct legal cells for the placement loop to finish. */
  predicate EnoughRolls(settings: GameSettings, firstClick: Option<Pos>, rolls: seq<Pos>)
  {
    RollsInRange(settings, rolls) && |Candidates(rolls, firstClick)| >= MineCount(settings)
  }

  /** What a freshly generated board guarantees. */
  ghost predicate Generated(b: Board, settings: GameSettings, firstClick: Option<Pos>, rolls: seq<Pos>)
  {
    && IsGrid(b, SizeConfig(settings.size).width, SizeConfig(settings.size).height)
    && Coordinates(b)
    && (forall q | In(b, q) :: !At(b, q).isRevealed && !At(b, q).isFlagged)
    && CountCells(b, IsMine) == MineCount(settings)
    && (forall q | In(b, q) && At(b, q).isMine :: q in rolls && Some(q) != firstClick)
    && CountsCorrect(b)
    && (forall q | In(b, q) && At(b, q).isMine :: At(b, q).neighborCount == 0)
  }

  /** Sampled coordinates from position i on that are legal and not yet mines. */
  ghost function Unmined(b: Board, rolls: seq<Pos>, i: nat, firstClick: Option<Pos>): set<Pos>
    requires i <= |rolls|
  {
    set q | q in rolls[i..] && Some(q) != firstClick && In(b, q) && !At(b, q).isMine
  }

  /** The cell at `q` of the mined board, with its neighbour count filled in once `done`. */
  ghost function Counted(mined: Board, q: Pos, done: bool): CellData
    requires In(mined, q)
  {
    if done && !At(mined, q).isMine then At(mined, q).(neighborCount := MinesAround(mined, q)) else At(mined, q)
  }

  /** Plants mines at the sampled coordinates `rolls` (skipping repeats and the first click)
      until the mine count is reached, then computes every safe cell's neighbour count. */
  method CreateBoard(settings: GameSettings, firstClick: Option<Pos>, rolls: seq<Pos>) returns (board: Board)
    requires EnoughRolls(settings, firstClick, rolls)
    ensures Generated(board, settings, firstClick, rolls)
  {
    var width, height := SizeConfig(settings.size).width, SizeConfig(settings.size).height;
    var mineCount := MineCount(settings);
    var empty := seq(height, y => seq(width, x => CellData(x, y, false, false, false, 0)));
    assert forall q | In(empty, q) :: At(empty, q) == CellData(q.x, q.y, false, false, false, 0);
    var mined := PlantMines(empty, width, height, mineCount, firstClick, rolls);
    board := FillCounts(mined, width, height);
    GeneratedParts(mined, board, settings, firstClick, rolls);
  }

  /** The board after placement: the right shape, every cell at its coordinates, hidden, unflagged
      and with count 0, and every mine at a sampled coordinate other than the first click. */
  ghost predicate Planted(b: Board, width: int, height: int, firstClick: Option<Pos>, rolls: seq<Pos>)
  {
    && IsGrid(b, width, height) && Coordinates(b)
    && (forall q | In(b, q) :: !At(b, q).isRevealed && !At(b, q).isFlagged && At(b, q).neighborCount == 0)
    && (forall q | In(b, q) && At(b, q).isMine :: q in rolls && Some(q) != firstClick)
  }

  /** Placement followed by counting gives a generated board. */
  lemma GeneratedParts(mined: Board, board: Board, settings: GameSettings, firstClick: Option<Pos>, rolls: seq<Pos>)
    requires Planted(mined, SizeConfig(settings.size).width, SizeConfig(settings.size).height, firstClick, rolls)
    requires CountCells(mined, IsMine) == MineCount(settings)
    requires SameShape(mined, board) && forall q | In(mined, q) :: At(board, q) == Counted(mined, q, true)
    requires CountsCorrect(board) && CountCells(board, IsMine) == CountCells(mined, IsMine)
    ensures Generated(board, settings, firstClick, rolls)
  {
    forall q | In(board, q) ensures At(board, q) == Counted(mined, q, true) {
      assert In(mined, q);
    }
  }

  /** The placement loop: draws coordinates from `rolls` until `mineCount` mines are planted. */
  method PlantMines(empty: Board, width: nat, height: nat, mineCount: nat, firstClick: Option<Pos>, rolls: seq<Pos>)
    returns (board: Board)
    requires IsGrid(empty, width, height)
    requires forall q | In(empty, q) :: At(empty, q) == CellData(q.x, q.y, false, false, false, 0)
    requires forall k | 0 <= k < |rolls| :: 0 <= rolls[k].x < width && 0 <= rolls[k].y < height
    requires |Candidates(rolls, firstClick)| >= mineCount
    ensures Planted(board, width, height, firstClick, rolls)
    ensures CountCells(board, IsMine) == mineCount
  {
    board := empty;
    CountCellsNone(board, IsMine);
    assert Unmined(board, rolls, 0, firstClick) == Candidates(rolls, firstClick) by {
      assert rolls[0..] == rolls;
    }
    var planted := 0;
    var i := 0;
    while planted < mineCount
      invariant 0 <= i <= |rolls|
      invariant Planted(board, width, height, firstClick, rolls)
      invariant planted == CountCells(board, IsMine) <= mineCount
      invariant |Unmined(board, rolls, i, firstClick)| >= mineCount - planted
      decreases |rolls| - i
    {
      var r := rolls[i];
      var isFirstClick := firstClick == Some(r);
      assert In(board, r);
      if !board[r.y][r.x].isMine && !isFirstClick {
        ghost var before := board;
        board := Put(board, r, board[r.y][r.x].(isMine := true));
        PlantOne(before, board, width, height, firstClick, rolls, i);
        planted := planted + 1;
      } else {
        UnminedShrinks(board, board, rolls, i, firstClick);
      }
      i := i + 1;
    }
  }

  /** Planting a mine at the sampled coordinate rolls[i] keeps the placement facts, counts one more
      mine, and loses that one candidate. */
  lemma PlantOne(b: Board, b': Board, width: int, height: int, firstClick: Option<Pos>, rolls: seq<Pos>, i: nat)
    requires Planted(b, width, height, firstClick, rolls)
    requires i < |rolls| && In(b, rolls[i]) && !At(b, rolls[i]).isMine && Some(rolls[i]) != firstClick
    requires b' == Put(b, rolls[i], At(b, rolls[i]).(isMine := true))
    ensures Planted(b', width, height, firstClick, rolls)
    ensures CountCells(b', IsMine) == CountCells(b, IsMine) + 1
    ensures |Unmined(b', rolls, i + 1, firstClick)| + 1 >= |Unmined(b, rolls, i, firstClick)|
  {
    CountCellsPut(b, rolls[i], At(b', rolls[i]), IsMine);
    UnminedShrinks(b, b', rolls, i, firstClick);
  }

  /** Moving past roll i loses at most that one candidate. */
  lemma UnminedShrinks(b: Board, b': Board, rolls: seq<Pos>, i: nat, firstClick: Option<Pos>)
    requires i < |rolls| && SameShape(b, b')
    requires forall q | In(b, q) && q != rolls[i] :: At(b', q).isMine == At(b, q).isMine
    ensures |Unmined(b', rolls, i + 1, firstClick)| + 1 >= |Unmined(b, rolls, i, firstClick)|
    ensures rolls[i] !in Unmined(b, rolls, i, firstClick) ==>
      |Unmined(b', rolls, i + 1, firstClick)| >= |Unmined(b, rolls, i, firstClick)|
  {
    var before, after := Unmined(b, rolls, i, firstClick), Unmined(b', rolls, i + 1, firstClick);
    forall q | q in before - {rolls[i]} ensures q in after {
      var k :| i <= k < |rolls| && rolls[k] == q;
      assert rolls[i + 1..][k - i - 1] == q;
    }
    SubsetCard(before - {rolls[i]}, after);
    if rolls[i] !in before {
      assert before - {rolls[i]} == before;
    }
  }

  /** The counting pass has filled in every safe cell before (x, y) in row-major order. */
  ghost predicate FilledUpTo(mined: Board, board: Board, width: int, height: int, y: int, x: int)
  {
    && IsGrid(mined, width, height) && IsGrid(board, width, height)
    && (forall q | In(mined, q) :: At(board, q) == Counted(mined, q, q.y < y || (q.y == y && q.x < x)))
  }

  /** The counting pass: fills in the neighbour count of every safe cell. */
  method FillCounts(mined: Board, width: nat, height: nat) returns (board: Board)
    requires IsGrid(mined, width, height)
    ensures SameShape(mined, board)
    ensures forall q | In(mined, q) :: At(board, q) == Counted(mined, q, true)
    ensures CountsCorrect(board)
    ensures CountCells(board, IsMine) == CountCells(mined, IsMine)
  {
    board := mined;
    for y := 0 to height
      invariant FilledUpTo(mined, board, width, height, y, 0)
    {
      for x := 0 to width
        invariant FilledUpTo(mined, board, width, height, y, x)
      {
        var p := Pos(x, y);
        FillAgree(mined, board, width, height, y, x);
        if !board[y][x].isMine {
          var n := CountMines(board, x, y, width, height);
          ghost var before := board;
          board := Put(board, p, board[y][x].(neighborCount := n));
          FillOne(mined, before, board, width, height, y, x);
        }
      }
      FillRow(mined, board, width, height, y);
    }
    FillDone(mined, board, width, height);
  }

  /** Midway through the pass the board has the mines of `mined`, and the cell at (x, y) is untouched. */
  lemma FillAgree(mined: Board, board: Board, width: int, height: int, y: int, x: int)
    requires FilledUpTo(mined, board, width, height, y, x) && 0 <= x < width && 0 <= y < height
    ensures At(board, Pos(x, y)) == At(mined, Pos(x, y))
    ensures MinesAround(board, Pos(x, y)) == MinesAround(mined, Pos(x, y))
    ensures At(mined, Pos(x, y)).isMine ==> FilledUpTo(mined, board, width, height, y, x + 1)
  {
    FillMinesAgree(mined, board, width, height, y, x);
    MarkedAgree(board, mined, Pos(x, y), IsMine);
    if At(mined, Pos(x, y)).isMine {
      FillSkip(mined, board, width, height, y, x);
    }
  }

  lemma FillMinesAgree(mined: Board, board: Board, width: int, height: int, y: int, x: int)
    requires FilledUpTo(mined, board, width, height, y, x) && 0 <= x < width && 0 <= y < height
    ensures At(board, Pos(x, y)) == At(mined, Pos(x, y))
    ensures forall q | In(board, q) :: IsMine(At(board, q)) == IsMine(At(mined, q))
  {
    assert In(mined, Pos(x, y));
    forall q | In(board, q) ensures IsMine(At(board, q)) == IsMine(At(mined, q)) {
      assert In(mined, q);
    }
  }

  /** The pass leaves a mine as it is, which moves it on by one cell. */
  lemma FillSkip(mined: Board, board: Board, width: int, height: int, y: int, x: int)
    requires FilledUpTo(mined, board, width, height, y, x) && 0 <= x < width && 0 <= y < height
    requires At(mined, Pos(x, y)).isMine
    ensures FilledUpTo(mined, board, width, height, y, x + 1)
  {
    forall q | In(mined, q) ensures At(board, q) == Counted(mined, q, q.y < y || (q.y == y && q.x < x + 1)) {
      if q == Pos(x, y) {
        assert Counted(mined, q, true) == Counted(mined, q, false);
      }
    }
  }

  /** Writing the count of the safe cell (x, y) moves the pass on by one cell. */
  lemma FillOne(mined: Board, before: Board, board: Board, width: int, height: int, y: int, x: int)
    requires FilledUpTo(mined, before, width, height, y, x) && 0 <= x < width && 0 <= y < height
    requires !At(mined, Pos(x, y)).isMine
    requires board == Put(before, Pos(x, y), At(mined, Pos(x, y)).(neighborCount := MinesAround(mined, Pos(x, y))))
    ensures FilledUpTo(mined, board, width, height, y, x + 1)
  {
    forall q | In(mined, q) ensures At(board, q) == Counted(mined, q, q.y < y || (q.y == y && q.x < x + 1)) {
      if q != Pos(x, y) {
        assert In(before, q);
      }
    }
  }

  lemma FillRow(mined: Board, board: Board, width: int, height: int, y: int)
    requires FilledUpTo(mined, board, width, height, y, width)
    ensures FilledUpTo(mined, board, width, height, y + 1, 0)
  {
    forall q | In(mined, q) ensures At(board, q) == Counted(mined, q, q.y < y + 1) {
      assert q.x < width;
    }
  }

  /** At the end of the pass every safe cell carries its count, and the mines are those of `mined`. */
  lemma FillDone(mined: Board, board: Board, width: int, height: int)
    requires FilledUpTo(mined, board, width, height, height, 0)
    ensures SameShape(mined, board)
    ensures forall q | In(mined, q) :: At(board, q) == Counted(mined, q, true)
    ensures CountsCorrect(board)
    ensures CountCells(board, IsMine) == CountCells(mined, IsMine)
  {
    assert forall q | In(board, q) :: IsMine(At(board, q)) == IsMine(At(mined, q)) by {
      forall q | In(board, q) ensures IsMine(At(board, q)) == IsMine(At(mined, q)) {
        assert In(mined, q);
      }
    }
    forall q | In(board, q) && !At(board, q).isMine ensures At(board, q).neighborCount == MinesAround(board, q) {
      MarkedAgree(board, mined, q, IsMine);
      assert In(mined, q);
    }
    CountCellsAgree(mined, board, IsMine);
  }

  // ---------------------------------------------------------------------------
  // Flood-fill reveal
  // ---------------------------------------------------------------------------

  /** `r` is `b` with some cells revealed: nothing else differs and no cell is hidden again. */
  ghost predicate OnlyRevealed(b: Board, r: Board)
  {
    && SameShape(b, r)
    && forall q | In(b, q) ::
         && At(r, q) == At(b, q).(isRevealed := At(r, q).isRevealed)
         && (At(b, q).isRevealed ==> At(r, q).isRevealed)
  }

  /** The cell at `q` was hidden in `b` and is revealed in `r`. */
  predicate NewlyRevealed(b: Board, r: Board, q: Pos)
    requires SameShape(b, r)
  {
    In(b, q) && !At(b, q).isRevealed && At(r, q).isRevealed
  }

  /** A newly revealed safe cell with no mine around it: the cells that make the fill spread. */
  predicate Opener(b: Board, r: Board, z: Pos)
    requires SameShape(b, r)
  {
    NewlyRevealed(b, r, z) && !At(r, z).isMine && At(r, z).neighborCount == 0
  }

  /** No flagged cell was revealed. */
  ghost predicate FlagsKept(b: Board, r: Board)
    requires SameShape(b, r)
  {
    forall q | NewlyRevealed(b, r, q) :: !At(b, q).isFlagged
  }

  /** Every neighbour of every opener is revealed or flagged: the fill has nowhere left to go. */
  ghost predicate Closed(b: Board, r: Board)
    requires SameShape(b, r)
  {
    forall z, q | Opener(b, r, z) && Adjacent(z, q) && In(b, q) :: At(r, q).isRevealed || At(r, q).isFlagged
  }

  /** `trail` lists the newly revealed cells once each, in an order that starts at `p`
      and in which every later cell touches an opener revealed before it. */
  ghost predicate Trail(b: Board, r: Board, p: Pos, trail: seq<Pos>)
    requires SameShape(b, r)
  {
    && (forall k | 0 <= k < |trail| :: NewlyRevealed(b, r, trail[k]))
    && (forall q | NewlyRevealed(b, r, q) :: q in trail)
    && (forall i, j | 0 <= i < j < |trail| :: trail[i] != trail[j])
    && (|trail| > 0 ==> trail[0] == p)
    && (forall k | 0 < k < |trail| :: Supported(b, r, trail, k))
  }

  /** Some cell before position k of the trail is an opener next to trail[k]. */
  ghost predicate Supported(b: Board, r: Board, trail: seq<Pos>, k: int)
    requires SameShape(b, r) && 0 <= k < |trail|
  {
    exists m | 0 <= m < k :: Adjacent(trail[k], trail[m]) && Opener(b, r, trail[m])
  }

  /** The outcome of a flood fill from `p`: `r` reveals exactly the cells of `trail`, which is
      empty when `p` was already revealed or flagged; no flag is crossed; the fill is closed. */
  ghost predicate Flooded(b: Board, r: Board, p: Pos, trail: seq<Pos>)
    requires In(b, p)
  {
    && OnlyRevealed(b, r)
    && FlagsKept(b, r)
    && Closed(b, r)
    && Trail(b, r, p, trail)
    && (trail == [] <==> At(b, p).isRevealed || At(b, p).isFlagged)
  }

  /** Pushes the in-bounds neighbours of `cur` onto `stack`, in scan order. */
  method PushNeighbors(b: Board, stack: seq<Pos>, cur: Pos) returns (s: seq<Pos>)
    requires Rect(b)
    ensures s == stack + ScanList(b, cur, 2, -1)
  {
    var width, height := Width(b), |b|;
    s := stack;
    for dy := -1 to 2
      invariant s == stack + ScanList(b, cur, dy, -1)
    {
      for dx := -1 to 2
        invariant s == stack + ScanList(b, cur, dy, dx)
      {
        ScanListAfter(b, cur, stack, dy, dx);
        s := PushNeighbor(b, cur, dy, dx, s);
      }
    }
  }

  /** The body of the inner loop at offset (dx, dy): an in-bounds neighbour other than `cur` is
      pushed onto `s`; that is, exactly what the scan lists at this offset. */
  method PushNeighbor(b: Board, cur: Pos, dy: int, dx: int, s: seq<Pos>) returns (s': seq<Pos>)
    requires Rect(b)
    ensures s' == s + Seen(b, cur, dy, dx)
  {
    var width, height := Width(b), |b|;
    s' := s;
    VisitsBounds(b, cur, dy, dx);
    if dx == 0 && dy == 0 {
      return;
    }
    var nx, ny := cur.x + dx, cur.y + dy;
    if nx >= 0 && nx < width && ny >= 0 && ny < height {
      s' := s' + [Pos(nx, ny)];
    }
  }

  /** Reveals (x, y) on a copy of the board and, from every revealed safe cell without
      neighbouring mines, keeps revealing its neighbours, using an explicit stack. */
  method RevealCell(b: Board, x: int, y: int) returns (r: Board, ghost trail: seq<Pos>)
    requires Rect(b) && In(b, Pos(x, y))
    ensures Flooded(b, r, Pos(x, y), trail)
    ensures b[y][x].isRevealed || b[y][x].isFlagged ==> r == b
    ensures CountsCorrect(b) && !b[y][x].isMine ==> forall q | NewlyRevealed(b, r, q) :: !At(b, q).isMine
  {
    var p := Pos(x, y);
    r := b;
    trail := [];
    var stack := [p];
    while |stack| > 0
      invariant FloodState(b, p, r, trail, stack)
      decreases CountCells(r, IsHidden), |stack|
    {
      r, trail, stack := PopAndReveal(b, p, r, trail, stack);
    }
    assert Closed(b, r);
    if trail == [] {
      assert r == b;
    }
    if CountsCorrect(b) && !b[y][x].isMine {
      TrailSafe(b, r, p, trail);
    }
  }

  /** The loop invariant of the flood fill from `p`, with working board `r`. */
  ghost predicate FloodState(b: Board, p: Pos, r: Board, trail: seq<Pos>, stack: seq<Pos>)
  {
    && Rect(b) && In(b, p)
    && OnlyRevealed(b, r) && FlagsKept(b, r) && Trail(b, r, p, trail)
    && (forall k | 0 <= k < |stack| :: In(b, stack[k]))
    && (trail == [] ==> r == b && |stack| <= 1 && forall k | 0 <= k < |stack| :: stack[k] == p)
    && (At(b, p).isRevealed || At(b, p).isFlagged ==> trail == [])
    && (trail != [] || p in stack || At(b, p).isRevealed || At(b, p).isFlagged)
    && (trail != [] ==> StackReached(b, r, trail, stack))
    && Pending(b, r, stack)
  }

  /** One turn of the flood-fill loop: pop a cell; unless it is revealed or flagged, reveal it
      and, when it is safe with no mine around it, push its neighbours. */
  method PopAndReveal(b: Board, p: Pos, r: Board, ghost trail: seq<Pos>, stack: seq<Pos>)
    returns (r': Board, ghost trail': seq<Pos>, stack': seq<Pos>)
    requires FloodState(b, p, r, trail, stack) && |stack| > 0
    ensures FloodState(b, p, r', trail', stack')
    ensures CountCells(r', IsHidden) < CountCells(r, IsHidden)
      || (CountCells(r', IsHidden) == CountCells(r, IsHidden) && |stack'| < |stack|)
  {
    var cur := stack[|stack| - 1];
    stack' := stack[..|stack| - 1];
    assert stack == stack' + [cur];
    var cell := r[cur.y][cur.x];
    if cell.isRevealed || cell.isFlagged {
      PendingPop(b, r, stack', cur);
      r', trail' := r, trail;
      return;
    }
    r' := Put(r, cur, cell.(isRevealed := true));
    CountCellsPut(r, cur, At(r', cur), IsHidden);
    trail' := trail + [cur];
    ghost var s0 := stack';
    if cell.neighborCount == 0 && !cell.isMine {
      stack' := PushNeighbors(r', stack', cur);
      PushedNear(r', s0, cur, stack');
    }
    RevealKeepsState(b, p, r, r', trail, s0, cur, stack');
  }

  /** Pushing the scan's neighbours of `cur` adds exactly the in-bounds neighbours of `cur`. */
  lemma PushedNear(b: Board, stack: seq<Pos>, cur: Pos, pushed: seq<Pos>)
    requires pushed == stack + ScanList(b, cur, 2, -1)
    ensures |pushed| >= |stack| && pushed[..|stack|] == stack
    ensures forall k | |stack| <= k < |pushed| :: Near(b, cur, pushed[k])
    ensures forall q | Near(b, cur, q) :: q in pushed
  {
    ScanListAll(b, cur);
    forall k | |stack| <= k < |pushed| ensures Near(b, cur, pushed[k]) {
      assert pushed[k] == ScanList(b, cur, 2, -1)[k - |stack|];
    }
  }

  /** Revealing the popped cell `cur` (and pushing `pushed` beyond the rest `s0` of the stack,
      which happens only when `cur` opens) keeps the flood-fill invariant. */
  lemma RevealKeepsState(b: Board, p: Pos, r: Board, r': Board, trail: seq<Pos>, s0: seq<Pos>, cur: Pos, pushed: seq<Pos>)
    requires FloodState(b, p, r, trail, s0 + [cur])
    requires In(r, cur) && !At(r, cur).isRevealed && !At(r, cur).isFlagged
    requires r' == Put(r, cur, At(r, cur).(isRevealed := true))
    requires |pushed| >= |s0| && pushed[..|s0|] == s0
    requires forall k | |s0| <= k < |pushed| :: Near(r', cur, pushed[k])
    requires |pushed| > |s0| ==> Opener(b, r', cur)
    requires Opener(b, r', cur) ==> forall q | Near(r', cur, q) :: q in pushed
    ensures FloodState(b, p, r', trail + [cur], pushed)
  {
    var stack, trail' := s0 + [cur], trail + [cur];
    RevealOne(b, r, r', cur);
    if trail != [] {
      assert StackReached(b, r, trail, stack) && stack[|s0|] == cur;
    }
    RevealStep(b, r, r', p, trail, cur);
    forall k | 0 <= k < |pushed| ensures Reaches(b, r', trail', pushed[k]) {
      if k < |s0| {
        assert pushed[k] == stack[k];
      } else {
        assert Adjacent(pushed[k], trail'[|trail'| - 1]) && Opener(b, r', trail'[|trail'| - 1]);
      }
    }
    forall k | 0 <= k < |pushed| ensures In(b, pushed[k]) {
      if k < |s0| {
        assert pushed[k] == stack[k];
      }
    }
    forall q | q in s0 ensures q in pushed {
      var k :| 0 <= k < |s0| && s0[k] == q;
      assert pushed[k] == q;
    }
    PendingReveal(b, r, r', s0, cur, pushed);
  }

  /** Every cell on the stack touches an opener of the trail. */
  ghost predicate StackReached(b: Board, r: Board, trail: seq<Pos>, stack: seq<Pos>)
    requires SameShape(b, r)
  {
    forall k | 0 <= k < |stack| :: Reaches(b, r, trail, stack[k])
  }

  /** Every neighbour of an opener is revealed, flagged or still waiting on the stack. */
  ghost predicate Pending(b: Board, r: Board, stack: seq<Pos>)
    requires SameShape(b, r)
  {
    forall z, q | Opener(b, r, z) && Adjacent(z, q) && In(b, q) :: At(r, q).isRevealed || At(r, q).isFlagged || q in stack
  }

  lemma PendingPop(b: Board, r: Board, stack: seq<Pos>, cur: Pos)
    requires SameShape(b, r) && Pending(b, r, stack + [cur])
    requires In(r, cur) && (At(r, cur).isRevealed || At(r, cur).isFlagged)
    ensures Pending(b, r, stack)
  {
    forall z, q | Opener(b, r, z) && Adjacent(z, q) && In(b, q)
      ensures At(r, q).isRevealed || At(r, q).isFlagged || q in stack
    {
      assert q in stack + [cur] ==> q in stack || q == cur;
    }
  }

  lemma PendingReveal(b: Board, r0: Board, r: Board, stack: seq<Pos>, cur: Pos, pushed: seq<Pos>)
    requires OnlyRevealed(b, r0) && OnlyRevealed(b, r) && OnlyRevealed(r0, r)
    requires Pending(b, r0, stack + [cur]) && In(b, cur) && At(r, cur).isRevealed
    requires forall z | Opener(b, r, z) :: Opener(b, r0, z) || z == cur
    requires forall q | q in stack :: q in pushed
    requires Opener(b, r, cur) ==> forall q | Near(r, cur, q) :: q in pushed
    ensures Pending(b, r, pushed)
  {
    forall z, q | Opener(b, r, z) && Adjacent(z, q) && In(b, q)
      ensures At(r, q).isRevealed || At(r, q).isFlagged || q in pushed
    {
      if z == cur {
        assert Near(r, cur, q);
      } else {
        assert Opener(b, r0, z);
        assert q in stack + [cur] ==> q in stack || q == cur;
      }
    }
  }

  /** Some cell of the trail is an opener next to `q`. */
  ghost predicate Reaches(b: Board, r: Board, trail: seq<Pos>, q: Pos)
    requires SameShape(b, r)
  {
    exists m | 0 <= m < |trail| :: Adjacent(q, trail[m]) && Opener(b, r, trail[m])
  }

  /** Revealing one hidden cell `cur`: the newly revealed cells gain `cur` and openers stay openers. */
  lemma RevealOne(b: Board, r0: Board, r: Board, cur: Pos)
    requires OnlyRevealed(b, r0) && FlagsKept(b, r0)
    requires In(b, cur) && !At(r0, cur).isRevealed && !At(r0, cur).isFlagged
    requires r == Put(r0, cur, At(r0, cur).(isRevealed := true))
    ensures OnlyRevealed(b, r) && FlagsKept(b, r)
    ensures forall q :: NewlyRevealed(b, r, q) <==> NewlyRevealed(b, r0, q) || q == cur
    ensures forall z | Opener(b, r0, z) :: Opener(b, r, z)
    ensures forall z | Opener(b, r, z) :: Opener(b, r0, z) || z == cur
  {
  }

  /** Revealing one more hidden, unflagged cell `cur` that the fill has reached extends the trail. */
  lemma RevealStep(b: Board, r0: Board, r: Board, p: Pos, trail: seq<Pos>, cur: Pos)
    requires SameShape(b, r0) && SameShape(b, r) && Trail(b, r0, p, trail)
    requires forall q :: NewlyRevealed(b, r, q) <==> NewlyRevealed(b, r0, q) || q == cur
    requires forall z | Opener(b, r0, z) :: Opener(b, r, z)
    requires !NewlyRevealed(b, r0, cur)
    requires trail == [] ==> cur == p
    requires trail != [] ==> Reaches(b, r0, trail, cur)
    ensures Trail(b, r, p, trail + [cur])
    ensures forall q | Reaches(b, r0, trail, q) :: Reaches(b, r, trail + [cur], q)
  {
    var t := trail + [cur];
    forall k | 0 < k < |t| ensures Supported(b, r, t, k) {
      if k < |trail| {
        assert Supported(b, r0, trail, k);
        var m :| 0 <= m < k && Adjacent(trail[k], trail[m]) && Opener(b, r0, trail[m]);
        assert Adjacent(t[k], t[m]) && Opener(b, r, t[m]);
      } else {
        var m :| 0 <= m < |trail| && Adjacent(cur, trail[m]) && Opener(b, r0, trail[m]);
        assert Adjacent(t[k], t[m]) && Opener(b, r, t[m]);
      }
    }
    forall q | Reaches(b, r0, trail, q) ensures Reaches(b, r, t, q) {
      var m :| 0 <= m < |trail| && Adjacent(q, trail[m]) && Opener(b, r0, trail[m]);
      assert Adjacent(q, t[m]) && Opener(b, r, t[m]);
    }
  }

  /** When counts are correct and the fill starts on a safe cell, every cell of the trail is safe. */
  lemma TrailSafe(b: Board, r: Board, p: Pos, trail: seq<Pos>)
    requires CountsCorrect(b) && In(b, p) && !At(b, p).isMine
    requires OnlyRevealed(b, r) && Trail(b, r, p, trail)
    ensures forall q | NewlyRevealed(b, r, q) :: !At(b, q).isMine
  {
    forall q | NewlyRevealed(b, r, q) ensures !At(b, q).isMine {
      var k :| 0 <= k < |trail| && trail[k] == q;
      if k > 0 {
        assert Supported(b, r, trail, k);
        var m :| 0 <= m < k && Adjacent(q, trail[m]) && Opener(b, r, trail[m]);
        var z := trail[m];
        assert At(r, z) == At(b, z).(isRevealed := true);
        NoMineNextToZero(b, z, q);
      }
    }
  }

  /** Two boards that only reveal cells of `b`, and agree on which, are equal. */
  lemma SameReveals(b: Board, r1: Board, r2: Board)
    requires OnlyRevealed(b, r1) && OnlyRevealed(b, r2)
    requires forall q | In(b, q) :: At(r1, q).isRevealed == At(r2, q).isRevealed
    ensures r1 == r2
  {
    forall j | 0 <= j < |b| ensures r1[j] == r2[j] {
      forall i | 0 <= i < |b[j]| ensures r1[j][i] == r2[j][i] {
        assert In(b, Pos(i, j));
      }
    }
  }

  /** The first `n` cells of one flood fill's trail are revealed by any other flood fill from the same cell. */
  lemma {:induction false} TrailCovered(b: Board, r1: Board, r2: Board, p: Pos, t1: seq<Pos>, t2: seq<Pos>, n: nat)
    requires In(b, p) && Flooded(b, r1, p, t1) && Flooded(b, r2, p, t2) && n <= |t1|
    ensures forall k | 0 <= k < n :: NewlyRevealed(b, r2, t1[k])
  {
    if n > 0 {
      TrailCovered(b, r1, r2, p, t1, t2, n - 1);
      var k := n - 1;
      var q := t1[k];
      if k == 0 {
        assert NewlyRevealed(b, r2, t2[0]);
      } else {
        assert Supported(b, r1, t1, k);
        var m :| 0 <= m < k && Adjacent(q, t1[m]) && Opener(b, r1, t1[m]);
        var z := t1[m];
        assert At(r2, z) == At(b, z).(isRevealed := true);
        assert Opener(b, r2, z) && !At(b, q).isFlagged;
      }
    }
  }

  /** The flood fill is deterministic: its outcome depends only on the board and the start cell. */
  lemma FloodedUnique(b: Board, p: Pos, r1: Board, t1: seq<Pos>, r2: Board, t2: seq<Pos>)
    requires In(b, p) && Flooded(b, r1, p, t1) && Flooded(b, r2, p, t2)
    ensures r1 == r2
  {
    TrailCovered(b, r1, r2, p, t1, t2, |t1|);
    TrailCovered(b, r2, r1, p, t2, t1, |t2|);
    forall q | In(b, q) ensures At(r1, q).isRevealed == At(r2, q).isRevealed {
      if NewlyRevealed(b, r1, q) {
        var k :| 0 <= k < |t1| && t1[k] == q;
      }
      if NewlyRevealed(b, r2, q) {
        var k :| 0 <= k < |t2| && t2[k] == q;
      }
    }
    SameReveals(b, r1, r2);
  }

  /** Revealing the same cell again changes nothing: a flood fill from `p` on the result is the result. */
  lemma FloodedIdempotent(b: Board, p: Pos, r: Board, t: seq<Pos>, r2: Board, t2: seq<Pos>)
    requires In(b, p) && Flooded(b, r, p, t)
    requires In(r, p) && Flooded(r, r2, p, t2)
    ensures r2 == r
  {
    if t != [] {
      assert NewlyRevealed(b, r, t[0]);
    } else {
      forall q | In(b, q) ensures At(b, q).isRevealed == At(r, q).isRevealed {
        assert !NewlyRevealed(b, r, q);
      }
      SameReveals(b, b, r);
    }
    forall q | In(r, q) ensures At(r, q).isRevealed == At(r2, q).isRevealed {
      assert !NewlyRevealed(r, r2, q);
    }
    SameReveals(r, r, r2);
  }

  /** A safe cell whose count is zero has no mine next to it. */
  lemma NoMineNextToZero(b: Board, z: Pos, q: Pos)
    requires CountsCorrect(b) && In(b, z) && In(b, q) && Adjacent(z, q)
    requires !At(b, z).isMine && At(b, z).neighborCount == 0
    ensures !At(b, q).isMine
  {
    assert MinesAround(b, z) == 0;
    assert q in Window(z);
  }

  // ---------------------------------------------------------------------------
  // Facts about boards that only differ by reveals
  // ---------------------------------------------------------------------------

  lemma OnlyRevealedTrans(a: Board, b: Board, c: Board)
    requires OnlyRevealed(a, b) && OnlyRevealed(b, c)
    ensures OnlyRevealed(a, c)
  {
  }

  lemma OnlyRevealedRect(b: Board, r: Board)
    requires Rect(b) && OnlyRevealed(b, r)
    ensures Rect(r)
  {
  }

  /** Revealing cells never disturbs the neighbour counts. */
  lemma CountsCorrectKept(b: Board, r: Board)
    requires OnlyRevealed(b, r) && CountsCorrect(b)
    ensures CountsCorrect(r)
  {
    forall q | In(r, q) && !At(r, q).isMine ensures At(r, q).neighborCount == MinesAround(r, q) {
      MarkedAgree(b, r, q, IsMine);
      assert In(b, q) && MinesAround(b, q) == MinesAround(r, q);
    }
  }

  /** Cells revealed first from `b` to `r` and then from `r` to `s` keep the fill closed. */
  lemma ClosedTrans(b: Board, r: Board, s: Board)
    requires OnlyRevealed(b, r) && OnlyRevealed(r, s)
    requires Closed(b, r) && Closed(r, s)
    ensures Closed(b, s)
  {
    OnlyRevealedTrans(b, r, s);
    forall z, q | Opener(b, s, z) && Adjacent(z, q) && In(b, q) ensures At(s, q).isRevealed || At(s, q).isFlagged {
      if !Opener(r, s, z) {
        assert Opener(b, r, z);
      }
    }
  }

  /** Revealing cells that are not openers keeps the fill closed. */
  lemma ClosedGrow(b: Board, r: Board, s: Board)
    requires OnlyRevealed(b, r) && OnlyRevealed(r, s) && Closed(b, r)
    requires forall q | NewlyRevealed(r, s, q) :: At(r, q).isMine
    ensures Closed(b, s)
  {
    OnlyRevealedTrans(b, r, s);
    forall z, q | Opener(b, s, z) && Adjacent(z, q) && In(b, q) ensures At(s, q).isRevealed || At(s, q).isFlagged {
      assert Opener(b, r, z);
    }
  }

  // ---------------------------------------------------------------------------
  // Chord reveal
  // ---------------------------------------------------------------------------

  /** A hidden, unflagged mine: the cell whose reveal ends the game. */
  predicate Live(c: CellData)
  {
    c.isMine && !c.isRevealed && !c.isFlagged
  }

  /** A chord on `p` goes ahead: `p` is a revealed, numbered cell with exactly that many flags around it. */
  predicate Fires(b: Board, p: Pos)
    requires In(b, p)
  {
    At(b, p).isRevealed && At(b, p).neighborCount != 0 && |Marked(b, p, IsFlagged)| == At(b, p).neighborCount
  }

  /** `trail` lists newly revealed cells, each next to `c` or to an opener listed before it. */
  ghost predicate Spread(b: Board, r: Board, c: Pos, trail: seq<Pos>)
    requires SameShape(b, r)
  {
    forall k | 0 <= k < |trail| :: NewlyRevealed(b, r, trail[k]) && (Adjacent(c, trail[k]) || Supported(b, r, trail, k))
  }

  lemma TrailSpread(b: Board, r: Board, p: Pos, trail: seq<Pos>, c: Pos)
    requires SameShape(b, r) && Trail(b, r, p, trail) && Adjacent(c, p)
    ensures Spread(b, r, c, trail)
  {
  }

  /** A spread from `b` to `r` followed by a spread from `r` to `s` is a spread from `b` to `s`. */
  lemma SpreadCompose(b: Board, r: Board, s: Board, c: Pos, t1: seq<Pos>, t2: seq<Pos>)
    requires OnlyRevealed(b, r) && OnlyRevealed(r, s)
    requires Spread(b, r, c, t1) && Spread(r, s, c, t2)
    ensures Spread(b, s, c, t1 + t2)
  {
    var t := t1 + t2;
    forall k | 0 <= k < |t| ensures NewlyRevealed(b, s, t[k]) && (Adjacent(c, t[k]) || Supported(b, s, t, k)) {
      if k < |t1| {
        SpreadComposeFirst(b, r, s, c, t1, t2, k);
      } else {
        SpreadComposeSecond(b, r, s, c, t1, t2, k);
      }
    }
  }

  /** A cell of the first trail keeps its place in the joined trail. */
  lemma SpreadComposeFirst(b: Board, r: Board, s: Board, c: Pos, t1: seq<Pos>, t2: seq<Pos>, k: int)
    requires OnlyRevealed(b, r) && OnlyRevealed(r, s) && SameShape(b, s)
    requires Spread(b, r, c, t1) && 0 <= k < |t1|
    ensures NewlyRevealed(b, s, (t1 + t2)[k]) && (Adjacent(c, (t1 + t2)[k]) || Supported(b, s, t1 + t2, k))
  {
    var t := t1 + t2;
    assert t[k] == t1[k] && NewlyRevealed(b, r, t1[k]);
    if !Adjacent(c, t[k]) {
      assert Supported(b, r, t1, k);
      var m :| 0 <= m < k && Adjacent(t1[k], t1[m]) && Opener(b, r, t1[m]);
      assert Adjacent(t[k], t[m]) && Opener(b, s, t[m]);
    }
  }

  /** A cell of the second trail is newly revealed from `b` too, supported by openers of the second trail. */
  lemma SpreadComposeSecond(b: Board, r: Board, s: Board, c: Pos, t1: seq<Pos>, t2: seq<Pos>, k: int)
    requires OnlyRevealed(b, r) && OnlyRevealed(r, s) && SameShape(b, s)
    requires Spread(r, s, c, t2) && |t1| <= k < |t1| + |t2|
    ensures NewlyRevealed(b, s, (t1 + t2)[k]) && (Adjacent(c, (t1 + t2)[k]) || Supported(b, s, t1 + t2, k))
  {
    var t, k2 := t1 + t2, k - |t1|;
    assert t[k] == t2[k2];
    NewlyLater(b, r, s, t2[k2]);
    if !Adjacent(c, t[k]) {
      assert Supported(r, s, t2, k2);
      var m :| 0 <= m < k2 && Adjacent(t2[k2], t2[m]) && Opener(r, s, t2[m]);
      NewlyLater(b, r, s, t2[m]);
      assert t[|t1| + m] == t2[m];
    }
  }

  /** A cell that `s` newly reveals over `r` is also newly revealed over the earlier `b`. */
  lemma NewlyLater(b: Board, r: Board, s: Board, z: Pos)
    requires OnlyRevealed(b, r) && SameShape(r, s) && SameShape(b, s) && NewlyRevealed(r, s, z)
    ensures NewlyRevealed(b, s, z)
  {
    assert In(b, z);
  }

  /** Revealing more cells keeps every listed cell revealed and every listed opener an opener. */
  lemma SpreadGrow(b: Board, r: Board, s: Board, c: Pos, trail: seq<Pos>)
    requires OnlyRevealed(b, r) && OnlyRevealed(r, s) && Spread(b, r, c, trail)
    ensures Spread(b, s, c, trail)
  {
    forall k | 0 <= k < |trail| ensures NewlyRevealed(b, s, trail[k]) && (Adjacent(c, trail[k]) || Supported(b, s, trail, k)) {
      if !Adjacent(c, trail[k]) {
        assert Supported(b, r, trail, k);
        var m :| 0 <= m < k && Adjacent(trail[k], trail[m]) && Opener(b, r, trail[m]);
        assert Opener(b, s, trail[m]);
      }
    }
  }

  /** Scans the up-to-8 neighbours of `p`, listing the in-bounds ones and counting the flagged ones. */
  method ScanNeighbors(b: Board, p: Pos) returns (neighbors: seq<Pos>, flagCount: nat)
    requires Rect(b)
    ensures neighbors == ScanList(b, p, 2, -1) && flagCount == ScanCount(b, p, IsFlagged, 2, -1)
    ensures forall q :: q in neighbors <==> Near(b, p, q)
    ensures flagCount == |Marked(b, p, IsFlagged)|
  {
    neighbors, flagCount := [], 0;
    for dy := -1 to 2
      invariant neighbors == ScanList(b, p, dy, -1) && flagCount == ScanCount(b, p, IsFlagged, dy, -1)
    {
      neighbors, flagCount := ScanNeighborsRow(b, p, dy, neighbors, flagCount);
    }
    ScanNeighborsDone(b, p, neighbors, flagCount);
  }

  /** The inner loop of the scan: the three offsets of row `dy`, extending the list `ns` and the count `n`. */
  method ScanNeighborsRow(b: Board, p: Pos, dy: int, ns: seq<Pos>, n: nat) returns (neighbors: seq<Pos>, flagCount: nat)
    requires Rect(b) && -1 <= dy <= 1
    requires ns == ScanList(b, p, dy, -1) && n == ScanCount(b, p, IsFlagged, dy, -1)
    ensures neighbors == ScanList(b, p, dy, 2) && flagCount == ScanCount(b, p, IsFlagged, dy, 2)
  {
    neighbors, flagCount := ns, n;
    for dx := -1 to 2
      invariant neighbors == ScanList(b, p, dy, dx) && flagCount == ScanCount(b, p, IsFlagged, dy, dx)
    {
      neighbors, flagCount := ScanNeighborsCell(b, p, dy, dx, neighbors, flagCount);
      ScanUnfold(b, p, IsFlagged, dy, dx);
    }
  }

  /** The body of the inner loop at offset (dx, dy): an in-bounds neighbour other than the centre is
      appended to the list `ns` and, when flagged, counted in `n`; that is, exactly what the scan lists
      and counts at this offset. */
  method ScanNeighborsCell(b: Board, p: Pos, dy: int, dx: int, ns: seq<Pos>, n: nat) returns (neighbors: seq<Pos>, flagCount: nat)
    requires Rect(b)
    ensures neighbors == ns + Seen(b, p, dy, dx) && flagCount == n + Tally(b, p, IsFlagged, dy, dx)
  {
    var width, height := Width(b), |b|;
    neighbors, flagCount := ns, n;
    VisitsBounds(b, p, dy, dx);
    if dx == 0 && dy == 0 {
      return;
    }
    var nx, ny := p.x + dx, p.y + dy;
    if nx >= 0 && nx < width && ny >= 0 && ny < height {
      neighbors := neighbors + [Pos(nx, ny)];
      if b[ny][nx].isFlagged {
        flagCount := flagCount + 1;
      }
    }
  }

  lemma ScanNeighborsDone(b: Board, p: Pos, ns: seq<Pos>, n: int)
    requires ns == ScanList(b, p, 2, -1) && n == ScanCount(b, p, IsFlagged, 2, -1)
    ensures forall q :: q in ns <==> Near(b, p, q)
    ensures n == |Marked(b, p, IsFlagged)|
  {
    ScanListAll(b, p);
    ScanCountAll(b, p, IsFlagged);
  }

  /** What the chord has done to the board so far: cells of `b` around `p` revealed, by flood fills listed in `trail`. */
  ghost predicate ChordBoard(b: Board, p: Pos, next: Board, trail: seq<Pos>)
  {
    && OnlyRevealed(b, next) && FlagsKept(b, next) && Closed(b, next)
    && Spread(b, next, p, trail)
    && (forall q | NewlyRevealed(b, next, q) :: q in trail)
    && (CountsCorrect(b) ==> forall q | NewlyRevealed(b, next, q) :: !At(b, q).isMine)
  }

  /** The first `i` neighbours in `ns` are handled: revealed, flagged, or a mine that set `exploded`. */
  ghost predicate ChordProgress(b: Board, p: Pos, ns: seq<Pos>, i: int, next: Board, exploded: bool)
    requires forall k | 0 <= k < |ns| :: In(b, ns[k]) && In(next, ns[k])
  {
    && 0 <= i <= |ns|
    && (forall k | 0 <= k < i :: At(next, ns[k]).isRevealed || At(next, ns[k]).isFlagged || (exploded && At(next, ns[k]).isMine))
    && (exploded ==> exists q | Near(b, p, q) :: Live(At(b, q)))
    && (CountsCorrect(b) ==> forall k | 0 <= k < i && Live(At(b, ns[k])) :: exploded)
  }

  /** The invariant of the chord loop after the first `i` neighbours in `ns` have been handled. */
  ghost predicate ChordState(b: Board, p: Pos, ns: seq<Pos>, i: int, next: Board, trail: seq<Pos>, exploded: bool, changed: bool)
  {
    && Rect(b) && In(b, p)
    && (forall k | 0 <= k < |ns| :: Near(b, p, ns[k])) && (forall q | Near(b, p, q) :: q in ns)
    && ChordBoard(b, p, next, trail)
    && ChordProgress(b, p, ns, i, next, exploded)
    && (changed <==> next != b)
  }

  /** Handling a neighbour that is revealed, flagged or a mine. */
  lemma ChordSkip(b: Board, p: Pos, ns: seq<Pos>, i: int, next: Board, trail: seq<Pos>, exploded: bool, changed: bool, exploded': bool)
    requires ChordState(b, p, ns, i, next, trail, exploded, changed) && i < |ns|
    requires var c := At(next, ns[i]); (c.isRevealed || c.isFlagged || c.isMine) && exploded' == (exploded || Live(c))
    ensures ChordState(b, p, ns, i + 1, next, trail, exploded', changed)
  {
    assert Near(b, p, ns[i]);
    ProgressSkip(b, p, ns, i, next, exploded, exploded');
  }

  lemma ProgressSkip(b: Board, p: Pos, ns: seq<Pos>, i: int, next: Board, exploded: bool, exploded': bool)
    requires OnlyRevealed(b, next)
    requires CountsCorrect(b) ==> forall q | NewlyRevealed(b, next, q) :: !At(b, q).isMine
    requires forall k | 0 <= k < |ns| :: In(b, ns[k]) && In(next, ns[k])
    requires ChordProgress(b, p, ns, i, next, exploded) && i < |ns| && Near(b, p, ns[i])
    requires var c := At(next, ns[i]); (c.isRevealed || c.isFlagged || c.isMine) && exploded' == (exploded || Live(c))
    ensures ChordProgress(b, p, ns, i + 1, next, exploded')
  {
    SkipHandled(ns, i, next, exploded, exploded');
    SkipWitness(b, p, ns[i], next, exploded, exploded');
    SkipCounts(b, ns, i, next, exploded, exploded');
  }

  /** The skipped neighbour is revealed, flagged or a mine that sets `exploded'`, so one more neighbour is handled. */
  lemma SkipHandled(ns: seq<Pos>, i: int, next: Board, exploded: bool, exploded': bool)
    requires forall k | 0 <= k < |ns| :: In(next, ns[k])
    requires 0 <= i < |ns|
    requires forall k | 0 <= k < i :: At(next, ns[k]).isRevealed || At(next, ns[k]).isFlagged || (exploded && At(next, ns[k]).isMine)
    requires var c := At(next, ns[i]); (c.isRevealed || c.isFlagged || c.isMine) && exploded' == (exploded || Live(c))
    ensures forall k | 0 <= k < i + 1 :: At(next, ns[k]).isRevealed || At(next, ns[k]).isFlagged || (exploded' && At(next, ns[k]).isMine)
  {
    forall k | 0 <= k < i + 1
      ensures At(next, ns[k]).isRevealed || At(next, ns[k]).isFlagged || (exploded' && At(next, ns[k]).isMine)
    {
    }
  }

  /** When the skipped neighbour `n` sets `exploded'`, a live mine around `p` is its witness. */
  lemma SkipWitness(b: Board, p: Pos, n: Pos, next: Board, exploded: bool, exploded': bool)
    requires OnlyRevealed(b, next) && Near(b, p, n)
    requires exploded ==> exists q | Near(b, p, q) :: Live(At(b, q))
    requires exploded' == (exploded || Live(At(next, n)))
    ensures exploded' ==> exists q | Near(b, p, q) :: Live(At(b, q))
  {
    SkipLive(b, next, n);
    if Live(At(next, n)) {
      assert Live(At(b, n));
    }
  }

  /** With correct counts, the chord has revealed no mine, so a live neighbour among the first `i + 1` has set `exploded'`. */
  lemma SkipCounts(b: Board, ns: seq<Pos>, i: int, next: Board, exploded: bool, exploded': bool)
    requires OnlyRevealed(b, next)
    requires forall k | 0 <= k < |ns| :: In(b, ns[k]) && In(next, ns[k])
    requires 0 <= i < |ns|
    requires CountsCorrect(b) ==> forall q | NewlyRevealed(b, next, q) :: !At(b, q).isMine
    requires CountsCorrect(b) ==> forall k | 0 <= k < i && Live(At(b, ns[k])) :: exploded
    requires exploded' == (exploded || Live(At(next, ns[i])))
    ensures CountsCorrect(b) ==> forall k | 0 <= k < i + 1 && Live(At(b, ns[k])) :: exploded'
  {
    SkipLive(b, next, ns[i]);
    if CountsCorrect(b) {
      forall k | 0 <= k < i + 1 && Live(At(b, ns[k])) ensures exploded' {
        if k == i {
          assert !NewlyRevealed(b, next, ns[i]);
        }
      }
    }
  }

  /** A live mine on the chord's board was live before the chord, and a live mine before is live now
      unless the chord revealed it. */
  lemma SkipLive(b: Board, next: Board, n: Pos)
    requires OnlyRevealed(b, next) && In(b, n)
    ensures Live(At(next, n)) ==> Live(At(b, n))
    ensures Live(At(b, n)) ==> Live(At(next, n)) || NewlyRevealed(b, next, n)
  {
    assert At(next, n) == At(b, n).(isRevealed := At(next, n).isRevealed);
  }

  /** Revealing more cells, among them the next neighbour `ns[i]` (a safe one), moves the chord on by one. */
  lemma ProgressFlood(b: Board, p: Pos, ns: seq<Pos>, i: int, next: Board, exploded: bool, next': Board)
    requires OnlyRevealed(b, next) && OnlyRevealed(next, next') && OnlyRevealed(b, next')
    requires forall k | 0 <= k < |ns| :: In(b, ns[k]) && In(next, ns[k]) && In(next', ns[k])
    requires ChordProgress(b, p, ns, i, next, exploded) && i < |ns|
    requires At(next', ns[i]).isRevealed && !At(b, ns[i]).isMine
    ensures ChordProgress(b, p, ns, i + 1, next', exploded)
  {
    forall k | 0 <= k < i + 1
      ensures At(next', ns[k]).isRevealed || At(next', ns[k]).isFlagged || (exploded && At(next', ns[k]).isMine)
    {
      if k < i {
        assert In(b, ns[k]);
      }
    }
  }

  /** A flood fill on top of boards that reveal cells of `b` around `p` keeps what the chord promises about them. */
  lemma FloodOnTop(b: Board, p: Pos, next: Board, trail: seq<Pos>, n: Pos, next': Board, t: seq<Pos>)
    requires ChordBoard(b, p, next, trail)
    requires In(next, n) && Adjacent(p, n) && Flooded(next, next', n, t)
    requires CountsCorrect(next) ==> forall q | NewlyRevealed(next, next', q) :: !At(next, q).isMine
    ensures ChordBoard(b, p, next', trail + t) && OnlyRevealed(next, next')
  {
    OnlyRevealedTrans(b, next, next');
    ClosedTrans(b, next, next');
    TrailSpread(next, next', n, t, p);
    SpreadCompose(b, next, next', p, trail, t);
    if CountsCorrect(b) {
      CountsCorrectKept(b, next);
    }
    forall q | NewlyRevealed(b, next', q) ensures q in trail + t && !At(b, q).isFlagged {
      if !NewlyRevealed(b, next, q) {
        assert NewlyRevealed(next, next', q);
      }
    }
  }

  /** Handling a hidden, unflagged, safe neighbour by a flood fill from it. */
  lemma ChordFlood(b: Board, p: Pos, ns: seq<Pos>, i: int, next: Board, trail: seq<Pos>, exploded: bool, changed: bool,
                   next': Board, t: seq<Pos>)
    requires ChordState(b, p, ns, i, next, trail, exploded, changed) && i < |ns|
    requires In(next, ns[i]) && !At(next, ns[i]).isRevealed && !At(next, ns[i]).isFlagged && !At(next, ns[i]).isMine
    requires Flooded(next, next', ns[i], t)
    requires CountsCorrect(next) ==> forall q | NewlyRevealed(next, next', q) :: !At(next, q).isMine
    ensures ChordState(b, p, ns, i + 1, next', trail + t, exploded, true)
  {
    ChordFloodParts(b, p, ns, i, next, trail, exploded, next', t);
  }

  lemma ChordFloodParts(b: Board, p: Pos, ns: seq<Pos>, i: int, next: Board, trail: seq<Pos>, exploded: bool,
                        next': Board, t: seq<Pos>)
    requires Rect(b) && ChordBoard(b, p, next, trail) && 0 <= i < |ns| && Near(b, p, ns[i])
    requires forall k | 0 <= k < |ns| :: In(b, ns[k]) && In(next, ns[k])
    requires ChordProgress(b, p, ns, i, next, exploded)
    requires !At(next, ns[i]).isRevealed && !At(next, ns[i]).isFlagged && !At(next, ns[i]).isMine
    requires Flooded(next, next', ns[i], t)
    requires CountsCorrect(next) ==> forall q | NewlyRevealed(next, next', q) :: !At(next, q).isMine
    ensures forall k | 0 <= k < |ns| :: In(next', ns[k])
    ensures ChordBoard(b, p, next', trail + t) && ChordProgress(b, p, ns, i + 1, next', exploded) && next' != b
  {
    var n := ns[i];
    FloodOnTop(b, p, next, trail, n, next', t);
    assert NewlyRevealed(next, next', n);
    ProgressFlood(b, p, ns, i, next, exploded, next');
    assert At(next', n) != At(b, n);
  }

  /** One pass of the chord loop: the neighbour `ns[i]` is flood-filled when it is hidden, unflagged
      and safe, and sets `exploded` when it is a hidden, unflagged mine. */
  method ChordStep(b: Board, p: Pos, ns: seq<Pos>, i: int, next: Board, ghost trail: seq<Pos>, exploded: bool, changed: bool)
    returns (next': Board, ghost trail': seq<Pos>, exploded': bool, changed': bool)
    requires ChordState(b, p, ns, i, next, trail, exploded, changed) && 0 <= i < |ns|
    ensures ChordState(b, p, ns, i + 1, next', trail', exploded', changed')
  {
    var n := ns[i];
    assert Near(b, p, n);
    OnlyRevealedRect(b, next);
    var target := next[n.y][n.x];
    if !target.isRevealed && !target.isFlagged && !target.isMine {
      ghost var t;
      next', t := RevealCell(next, n.x, n.y);
      ChordFlood(b, p, ns, i, next, trail, exploded, changed, next', t);
      trail', exploded', changed' := trail + t, exploded, true;
    } else {
      next', trail', exploded', changed' := next, trail, exploded, changed;
      if !target.isRevealed && !target.isFlagged {
        exploded' := true;
      }
      ChordSkip(b, p, ns, i, next, trail, exploded, changed, exploded');
    }
  }

  /** The chord's loop over the neighbours `ns` of `p`, from the unchanged board. */
  method ChordLoop(b: Board, p: Pos, ns: seq<Pos>) returns (next: Board, ghost trail: seq<Pos>, exploded: bool, changed: bool)
    requires Rect(b) && In(b, p)
    requires (forall k | 0 <= k < |ns| :: Near(b, p, ns[k])) && (forall q | Near(b, p, q) :: q in ns)
    ensures ChordState(b, p, ns, |ns|, next, trail, exploded, changed)
  {
    next, trail, exploded, changed := b, [], false, false;
    for i := 0 to |ns|
      invariant ChordState(b, p, ns, i, next, trail, exploded, changed)
    {
      next, trail, exploded, changed := ChordStep(b, p, ns, i, next, trail, exploded, changed);
    }
  }

  /** A chord on (x, y): when the revealed number there equals the flags around it, reveals every
      unflagged neighbour (flood-filling from the safe ones); if one of them is a mine the chord
      explodes and every mine on the board is shown. `changed` is false exactly when the board
      returned is the one passed in. */
  method ChordReveal(b: Board, x: int, y: int) returns (r: Board, exploded: bool, changed: bool, ghost trail: seq<Pos>)
    requires Rect(b) && In(b, Pos(x, y))
    ensures OnlyRevealed(b, r)
    ensures changed <==> r != b
    ensures !Fires(b, Pos(x, y)) ==> r == b && !exploded
    ensures exploded ==> Fires(b, Pos(x, y)) && exists q | Near(b, Pos(x, y), q) :: Live(At(b, q))
    ensures CountsCorrect(b) && Fires(b, Pos(x, y)) && (exists q | Near(b, Pos(x, y), q) :: Live(At(b, q))) ==> exploded
    ensures exploded ==> forall q | In(r, q) && At(r, q).isMine :: At(r, q).isRevealed
    ensures exploded ==> !CheckWin(r)
    ensures Fires(b, Pos(x, y)) ==> forall q | Near(b, Pos(x, y), q) && !At(b, q).isFlagged :: At(r, q).isRevealed
    ensures Closed(b, r)
    ensures Spread(b, r, Pos(x, y), trail)
    ensures forall q | NewlyRevealed(b, r, q) :: q in trail || (exploded && At(b, q).isMine)
    ensures !exploded ==> FlagsKept(b, r)
    ensures forall q | NewlyRevealed(b, r, q) && At(b, q).isFlagged :: exploded && At(b, q).isMine
    ensures CountsCorrect(b) && !exploded ==> forall q | NewlyRevealed(b, r, q) :: !At(b, q).isMine
  {
    var p := Pos(x, y);
    var cell := b[y][x];
    trail := [];
    if !cell.isRevealed || cell.neighborCount == 0 {
      return b, false, false, trail;
    }
    var neighbors, flagCount := ScanNeighbors(b, p);
    if flagCount != cell.neighborCount {
      return b, false, false, trail;
    }
    r, exploded, changed, trail := ChordFire(b, p, neighbors);
  }

  /** A chord that fires on `p`: the loop over the neighbours `ns`, then every mine shown if one exploded. */
  method ChordFire(b: Board, p: Pos, ns: seq<Pos>) returns (r: Board, exploded: bool, changed: bool, ghost trail: seq<Pos>)
    requires Rect(b) && In(b, p)
    requires (forall k | 0 <= k < |ns| :: Near(b, p, ns[k])) && (forall q | Near(b, p, q) :: q in ns)
    ensures OnlyRevealed(b, r)
    ensures changed <==> r != b
    ensures exploded ==> exists q | Near(b, p, q) :: Live(At(b, q))
    ensures CountsCorrect(b) && (exists q | Near(b, p, q) :: Live(At(b, q))) ==> exploded
    ensures exploded ==> forall q | In(r, q) && At(r, q).isMine :: At(r, q).isRevealed
    ensures exploded ==> !CheckWin(r)
    ensures forall q | Near(b, p, q) && !At(b, q).isFlagged :: At(r, q).isRevealed
    ensures Closed(b, r)
    ensures Spread(b, r, p, trail)
    ensures forall q | NewlyRevealed(b, r, q) :: q in trail || (exploded && At(b, q).isMine)
    ensures !exploded ==> FlagsKept(b, r)
    ensures forall q | NewlyRevealed(b, r, q) && At(b, q).isFlagged :: exploded && At(b, q).isMine
    ensures CountsCorrect(b) && !exploded ==> forall q | NewlyRevealed(b, r, q) :: !At(b, q).isMine
  {
    var next;
    next, trail, exploded, changed := ChordLoop(b, p, ns);
    r := next;
    if exploded {
      r := RevealAllMines(next);
      ChordExplode(b, p, ns, next, r, trail, changed);
      ChordExplodeNotWon(b, p, ns, next, r, trail, changed);
      changed := true;
    } else {
      ChordQuiet(b, p, ns, next, trail, changed);
    }
  }

  /** The end of a chord without a mine: the board the loop built is the result. */
  lemma ChordQuiet(b: Board, p: Pos, ns: seq<Pos>, next: Board, trail: seq<Pos>, changed: bool)
    requires ChordState(b, p, ns, |ns|, next, trail, false, changed)
    ensures CountsCorrect(b) ==> forall q | Near(b, p, q) :: !Live(At(b, q))
    ensures forall q | Near(b, p, q) && !At(b, q).isFlagged :: At(next, q).isRevealed
  {
    forall q | Near(b, p, q) ensures (CountsCorrect(b) ==> !Live(At(b, q))) && (!At(b, q).isFlagged ==> At(next, q).isRevealed) {
      var k :| 0 <= k < |ns| && ns[k] == q;
    }
  }

  /** The end of a chord that hit a mine: every mine is shown on top of the board the loop built. */
  lemma ChordExplode(b: Board, p: Pos, ns: seq<Pos>, next: Board, r: Board, trail: seq<Pos>, changed: bool)
    requires ChordState(b, p, ns, |ns|, next, trail, true, changed)
    requires r == RevealAllMines(next)
    ensures OnlyRevealed(b, r) && r != b
    ensures forall q | In(r, q) && At(r, q).isMine :: At(r, q).isRevealed
    ensures forall q | Near(b, p, q) && !At(b, q).isFlagged :: At(r, q).isRevealed
    ensures Closed(b, r) && Spread(b, r, p, trail)
    ensures forall q | NewlyRevealed(b, r, q) :: q in trail || At(b, q).isMine
    ensures forall q | NewlyRevealed(b, r, q) && At(b, q).isFlagged :: At(b, q).isMine
  {
    ClosedGrow(b, next, r);
    SpreadGrow(b, next, r, p, trail);
    OnlyRevealedTrans(b, next, r);
    var q :| Near(b, p, q) && Live(At(b, q));
    assert At(r, q) != At(b, q);
    forall q | Near(b, p, q) && !At(b, q).isFlagged ensures At(r, q).isRevealed {
      var k :| 0 <= k < |ns| && ns[k] == q;
    }
    forall q | NewlyRevealed(b, r, q) ensures q in trail || At(b, q).isMine {
      if !At(b, q).isMine {
        assert NewlyRevealed(b, next, q);
      }
    }
    forall q | NewlyRevealed(b, r, q) && At(b, q).isFlagged ensures At(b, q).isMine {
      assert !NewlyRevealed(b, next, q);
    }
  }

  /** A chord that hit a mine leaves a board that is not won: the mine it hit is shown. */
  lemma ChordExplodeNotWon(b: Board, p: Pos, ns: seq<Pos>, next: Board, r: Board, trail: seq<Pos>, changed: bool)
    requires ChordState(b, p, ns, |ns|, next, trail, true, changed)
    requires r == RevealAllMines(next)
    ensures !CheckWin(r)
  {
    var q :| Near(b, p, q) && Live(At(b, q));
    LostIsNotWon(next, q);
  }

  // ---------------------------------------------------------------------------
  // Win test
  // ---------------------------------------------------------------------------

  /** A cell is settled when it is a hidden mine or a revealed safe cell. */
  predicate Settled(c: CellData)
  {
    (c.isMine && !c.isRevealed) || (!c.isMine && c.isRevealed)
  }

  /** The game is won when every cell of every row is settled; flags play no part. */
  predicate CheckWin(b: Board)
  {
    forall j | 0 <= j < |b| :: forall i | 0 <= i < |b[j]| :: Settled(b[j][i])
  }

  predicate RevealedMine(c: CellData) { c.isMine && c.isRevealed }

  predicate HiddenMine(c: CellData) { c.isMine && !c.isRevealed }

  predicate HiddenSafe(c: CellData) { !c.isMine && !c.isRevealed }

  /** A board is won exactly when no mine is revealed and the hidden cells are as many as the mines,
      that is, when the hidden cells are precisely the mines. */
  lemma WinByCounts(b: Board)
    ensures CheckWin(b) <==> CountCells(b, RevealedMine) == 0 && CountCells(b, IsHidden) == CountCells(b, IsMine)
  {
    CountCellsSum(b, IsHidden, HiddenMine, HiddenSafe);
    CountCellsSum(b, IsMine, HiddenMine, RevealedMine);
    if CheckWin(b) {
      forall q | In(b, q) ensures !RevealedMine(At(b, q)) && !HiddenSafe(At(b, q)) {
        assert Settled(b[q.y][q.x]);
      }
      CountCellsNone(b, RevealedMine);
      CountCellsNone(b, HiddenSafe);
    } else {
      var j :| 0 <= j < |b| && !forall i | 0 <= i < |b[j]| :: Settled(b[j][i]);
      var i :| 0 <= i < |b[j]| && !Settled(b[j][i]);
      var q := Pos(i, j);
      if At(b, q).isMine {
        CountCellsSome(b, RevealedMine, q);
      } else {
        CountCellsSome(b, HiddenSafe, q);
      }
    }
  }

  /** Once every mine is shown (a lost game) the board is not a win, unless it has no mine at all. */
  lemma LostIsNotWon(b: Board, q: Pos)
    requires In(b, q) && At(b, q).isMine
    ensures !CheckWin(RevealAllMines(b))
  {
    var r := RevealAllMines(b);
    assert !Settled(r[q.y][q.x]);
  }

  /** Shows every mine and changes nothing else. */
  function RevealAllMines(b: Board): (r: Board)
    ensures OnlyRevealed(b, r)
    ensures forall q | In(b, q) :: At(r, q).isRevealed == (At(b, q).isRevealed || At(b, q).isMine)
  {
    seq(|b|, j requires 0 <= j < |b| =>
      seq(|b[j]|, i requires 0 <= i < |b[j]| => b[j][i].(isRevealed := if b[j][i].isMine then true else b[j][i].isRevealed)))
  }
}
