// Geometry of the board: bounds, the up-to-8 neighbours of a cell clipped at the edges,
// the row-major scan of a 3x3 window that the engine's loops perform, and cell counting.

module Grid {
  import opened Types

  /** Number of columns, read off the first row as the engine does. */
  function Width(b: Board): nat
  {
    if |b| == 0 then 0 else |b[0]|
  }

  /** Every row has the same length. */
  predicate Rect(b: Board)
  {
    forall j | 0 <= j < |b| :: |b[j]| == Width(b)
  }

  /** The board has `h` rows of `w` cells. */
  predicate IsGrid(b: Board, w: int, h: int)
  {
    |b| == h && forall j | 0 <= j < |b| :: |b[j]| == w
  }

  predicate In(b: Board, q: Pos)
  {
    0 <= q.y < |b| && 0 <= q.x < |b[q.y]|
  }

  function At(b: Board, q: Pos): CellData
    requires In(b, q)
  {
    b[q.y][q.x]
  }

  /** The board with the cell at `q` replaced by `c`. */
  function Put(b: Board, q: Pos, c: CellData): (r: Board)
    requires In(b, q)
    ensures |r| == |b| && forall j | 0 <= j < |b| :: |r[j]| == |b[j]|
    ensures At(r, q) == c
    ensures forall p | In(b, p) && p != q :: At(r, p) == At(b, p)
  {
    b[q.y := b[q.y][q.x := c]]
  }

  predicate SameShape(b: Board, r: Board)
  {
    |r| == |b| && forall j | 0 <= j < |b| :: |r[j]| == |b[j]|
  }

  /** `q` is one of the 8 cells around `p`. */
  predicate Adjacent(p: Pos, q: Pos)
  {
    q != p && -1 <= q.x - p.x <= 1 && -1 <= q.y - p.y <= 1
  }

  /** `q` is an in-bounds neighbour of `p`. */
  predicate Near(b: Board, p: Pos, q: Pos)
  {
    Adjacent(p, q) && In(b, q)
  }

  /** The 8 positions around `p`, before clipping at the board edge. */
  function Window(p: Pos): (w: set<Pos>)
    ensures forall q :: q in w <==> Adjacent(p, q)
    ensures |w| == 8
  {
    var x, y := p.x, p.y;
    {Pos(x - 1, y - 1), Pos(x, y - 1), Pos(x + 1, y - 1),
     Pos(x - 1, y),                    Pos(x + 1, y),
     Pos(x - 1, y + 1), Pos(x, y + 1), Pos(x + 1, y + 1)}
  }

  /** The in-bounds neighbours of `p` whose cell satisfies `f`. */
  function Marked(b: Board, p: Pos, f: CellData -> bool): set<Pos>
  {
    set q | q in Window(p) && In(b, q) && f(At(b, q))
  }

  /** In the scan order dy = -1..1, dx = -1..1, offset (q - p) comes before (dx, dy). */
  predicate Before(p: Pos, q: Pos, dy: int, dx: int)
  {
    q.y - p.y < dy || (q.y - p.y == dy && q.x - p.x < dx)
  }

  /** The part of Marked(b, p, f) a scan has visited when it is about to look at offset (dx, dy). */
  function MarkedBefore(b: Board, p: Pos, f: CellData -> bool, dy: int, dx: int): set<Pos>
  {
    set q | q in Marked(b, p, f) && Before(p, q, dy, dx)
  }

  lemma ScanStart(b: Board, p: Pos, f: CellData -> bool)
    ensures MarkedBefore(b, p, f, -1, -1) == {}
  {
  }

  /** Looking at offset (dx, dy) adds that one cell (unless it is the centre, out of bounds or unmarked). */
  lemma ScanStep(b: Board, p: Pos, f: CellData -> bool, dy: int, dx: int, before: set<Pos>, after: set<Pos>)
    requires -1 <= dy <= 1 && -1 <= dx <= 1
    requires before == MarkedBefore(b, p, f, dy, dx) && after == MarkedBefore(b, p, f, dy, dx + 1)
    ensures Pos(p.x + dx, p.y + dy) !in before
    ensures Hits(b, p, f, dy, dx) ==> after == before + {Pos(p.x + dx, p.y + dy)}
    ensures !Hits(b, p, f, dy, dx) ==> after == before
  {
    var q := Pos(p.x + dx, p.y + dy);
    MarkedHits(b, p, f, dy, dx);
    forall e ensures e in after <==> e in before || (e == q && q in Marked(b, p, f)) {
      ScanStepAt(b, p, f, dy, dx, before, after, e);
    }
  }

  /** One cell `e` is marked before (dx + 1, dy) exactly when it was marked before (dx, dy) or is the marked offset cell. */
  lemma ScanStepAt(b: Board, p: Pos, f: CellData -> bool, dy: int, dx: int, before: set<Pos>, after: set<Pos>, e: Pos)
    requires before == MarkedBefore(b, p, f, dy, dx) && after == MarkedBefore(b, p, f, dy, dx + 1)
    ensures e in after <==> e in before || (e == Pos(p.x + dx, p.y + dy) && e in Marked(b, p, f))
  {
    assert e in after <==> e in Marked(b, p, f) && Before(p, e, dy, dx + 1);
    assert e in before <==> e in Marked(b, p, f) && Before(p, e, dy, dx);
  }

  /** The offset cell is marked exactly when the scan hits it. */
  lemma MarkedHits(b: Board, p: Pos, f: CellData -> bool, dy: int, dx: int)
    requires -1 <= dy <= 1 && -1 <= dx <= 1
    ensures Pos(p.x + dx, p.y + dy) in Marked(b, p, f) <==> Hits(b, p, f, dy, dx)
  {
  }

  lemma ScanRow(b: Board, p: Pos, f: CellData -> bool, dy: int)
    ensures MarkedBefore(b, p, f, dy, 2) == MarkedBefore(b, p, f, dy + 1, -1)
  {
  }

  lemma ScanEnd(b: Board, p: Pos, f: CellData -> bool)
    ensures MarkedBefore(b, p, f, 2, -1) == Marked(b, p, f)
  {
  }

  /** A scan position (dx, dy): rows dy = -1..1, in each row dx = -1..1, and dx = 2 at the end of a row;
      (-1, 2) is the end of the whole scan. */
  predicate ScanPoint(dy: int, dx: int)
  {
    (-1 <= dy <= 1 && -1 <= dx <= 2) || (dy == 2 && dx == -1)
  }

  /** The scan looks at offset (dx, dy) and finds an in-bounds neighbour there. */
  predicate Visits(b: Board, p: Pos, dy: int, dx: int)
  {
    (dx != 0 || dy != 0) && In(b, Pos(p.x + dx, p.y + dy))
  }

  /** The scan visits (dx, dy) and the cell there satisfies `f`. */
  predicate Hits(b: Board, p: Pos, f: CellData -> bool, dy: int, dx: int)
  {
    Visits(b, p, dy, dx) && f(At(b, Pos(p.x + dx, p.y + dy)))
  }

  /** What the scan lists at offset (dx, dy): that cell when it visits it, nothing otherwise. */
  function Seen(b: Board, p: Pos, dy: int, dx: int): seq<Pos>
  {
    if Visits(b, p, dy, dx) then [Pos(p.x + dx, p.y + dy)] else []
  }

  /** What the scan counts at offset (dx, dy): one when it hits a cell satisfying `f` there. */
  function Tally(b: Board, p: Pos, f: CellData -> bool, dy: int, dx: int): nat
  {
    if Hits(b, p, f, dy, dx) then 1 else 0
  }

  /** The neighbours a scan lists before it reaches (dx, dy), in scan order. */
  function ScanList(b: Board, p: Pos, dy: int, dx: int): seq<Pos>
    requires ScanPoint(dy, dx)
    decreases 4 * (dy + 1) + dx + 1
  {
    if dx == -1 then (if dy == -1 then [] else ScanList(b, p, dy - 1, 2))
    else ScanList(b, p, dy, dx - 1) + Seen(b, p, dy, dx - 1)
  }

  /** How many of the neighbours a scan visits before it reaches (dx, dy) satisfy `f`. */
  function ScanCount(b: Board, p: Pos, f: CellData -> bool, dy: int, dx: int): nat
    requires ScanPoint(dy, dx)
    decreases 4 * (dy + 1) + dx + 1
  {
    if dx == -1 then (if dy == -1 then 0 else ScanCount(b, p, f, dy - 1, 2))
    else
      ScanCount(b, p, f, dy, dx - 1) + Tally(b, p, f, dy, dx - 1)
  }

  /** One step of the scan adds what it lists and counts at (dx, dy). */
  lemma ScanUnfold(b: Board, p: Pos, f: CellData -> bool, dy: int, dx: int)
    requires -1 <= dy <= 1 && -1 <= dx <= 1
    ensures ScanList(b, p, dy, dx + 1) == ScanList(b, p, dy, dx) + Seen(b, p, dy, dx)
    ensures ScanCount(b, p, f, dy, dx + 1) == ScanCount(b, p, f, dy, dx) + Tally(b, p, f, dy, dx)
  {
  }

  /** On a rectangular board, whether the scan visits (dx, dy) is the bounds test on the offset cell. */
  lemma VisitsBounds(b: Board, p: Pos, dy: int, dx: int)
    requires Rect(b)
    ensures Visits(b, p, dy, dx) <==> (dx != 0 || dy != 0) && 0 <= p.x + dx < Width(b) && 0 <= p.y + dy < |b|
  {
  }

  /** The same step behind a prefix `pre`, as when the scan pushes onto a stack. */
  lemma ScanListAfter(b: Board, p: Pos, pre: seq<Pos>, dy: int, dx: int)
    requires -1 <= dy <= 1 && -1 <= dx <= 1
    ensures pre + ScanList(b, p, dy, dx + 1) == pre + ScanList(b, p, dy, dx) + Seen(b, p, dy, dx)
  {
  }

  /** `s` lists only in-bounds neighbours before (dx, dy), and all of them. */
  ghost predicate ListsBefore(b: Board, p: Pos, s: seq<Pos>, dy: int, dx: int)
  {
    && (forall k | 0 <= k < |s| :: Adjacent(p, s[k]) && In(b, s[k]) && Before(p, s[k], dy, dx))
    && (forall q | Adjacent(p, q) && In(b, q) && Before(p, q, dy, dx) :: q in s)
  }

  /** The neighbours listed before (dx, dy) are exactly the in-bounds neighbours before it. */
  lemma {:induction false} ScanListBefore(b: Board, p: Pos, dy: int, dx: int)
    requires ScanPoint(dy, dx)
    ensures ListsBefore(b, p, ScanList(b, p, dy, dx), dy, dx)
    decreases 4 * (dy + 1) + dx + 1, 1
  {
    if dx == -1 && dy == -1 {
      ScanListBeforeStart(b, p, ScanList(b, p, dy, dx));
    } else if dx == -1 {
      ScanListBeforeNewRow(b, p, dy);
    } else {
      ScanListBeforeNext(b, p, dy, dx);
    }
  }

  /** The start of a row lists what the end of the row before it listed. */
  lemma {:induction false} ScanListBeforeNewRow(b: Board, p: Pos, dy: int)
    requires 0 <= dy <= 2
    ensures ListsBefore(b, p, ScanList(b, p, dy, -1), dy, -1)
    decreases 4 * (dy + 1), 0
  {
    ScanListBefore(b, p, dy - 1, 2);
    var s := ScanList(b, p, dy - 1, 2);
    RowSame(b, p, s, dy);
    RowUnfold(b, p, dy, s);
  }

  /** A position inside a row lists what the position before it listed, plus that cell when in bounds. */
  lemma {:induction false} ScanListBeforeNext(b: Board, p: Pos, dy: int, dx: int)
    requires -1 <= dy <= 1 && 0 <= dx <= 2
    ensures ListsBefore(b, p, ScanList(b, p, dy, dx), dy, dx)
    decreases 4 * (dy + 1) + dx + 1, 0
  {
    ScanListBefore(b, p, dy, dx - 1);
    ScanListBeforeStep(b, p, dy, dx - 1);
  }

  lemma ScanListBeforeStart(b: Board, p: Pos, s: seq<Pos>)
    requires s == []
    ensures ListsBefore(b, p, s, -1, -1)
  {
  }

  /** The scan at the start of row `dy` has listed what it listed at the end of the row before. */
  lemma RowUnfold(b: Board, p: Pos, dy: int, s: seq<Pos>)
    requires 0 <= dy <= 2 && s == ScanList(b, p, dy - 1, 2)
    ensures ScanList(b, p, dy, -1) == s
  {
  }

  /** Among neighbours, coming before the end of row `dy - 1` is coming before the start of row `dy`. */
  lemma RowSame(b: Board, p: Pos, s: seq<Pos>, dy: int)
    requires ListsBefore(b, p, s, dy - 1, 2)
    ensures ListsBefore(b, p, s, dy, -1)
  {
    forall q | Adjacent(p, q) && In(b, q) && Before(p, q, dy, -1) ensures q in s {
      assert Before(p, q, dy - 1, 2);
    }
  }

  lemma ScanListBeforeStep(b: Board, p: Pos, dy: int, dx: int)
    requires -1 <= dy <= 1 && -1 <= dx <= 1
    requires ListsBefore(b, p, ScanList(b, p, dy, dx), dy, dx)
    ensures ListsBefore(b, p, ScanList(b, p, dy, dx + 1), dy, dx + 1)
  {
    var s, s' := ScanList(b, p, dy, dx), ScanList(b, p, dy, dx + 1);
    ScanListUnfold(b, p, dy, dx, s, s');
    StepBoth(b, p, dy, dx, s, s');
  }

  lemma ScanListUnfold(b: Board, p: Pos, dy: int, dx: int, s: seq<Pos>, s': seq<Pos>)
    requires -1 <= dy <= 1 && -1 <= dx <= 1
    requires s == ScanList(b, p, dy, dx) && s' == ScanList(b, p, dy, dx + 1)
    ensures s' == s + if Visits(b, p, dy, dx) then [Pos(p.x + dx, p.y + dy)] else []
  {
  }

  lemma StepBoth(b: Board, p: Pos, dy: int, dx: int, s: seq<Pos>, s': seq<Pos>)
    requires -1 <= dy <= 1 && -1 <= dx <= 1
    requires ListsBefore(b, p, s, dy, dx)
    requires s' == s + if Visits(b, p, dy, dx) then [Pos(p.x + dx, p.y + dy)] else []
    ensures ListsBefore(b, p, s', dy, dx + 1)
  {
    StepSound(b, p, dy, dx, s, s');
    StepComplete(b, p, dy, dx, s, s');
  }

  /** Every cell listed after one more step is an in-bounds neighbour before the next offset. */
  lemma StepSound(b: Board, p: Pos, dy: int, dx: int, s: seq<Pos>, s': seq<Pos>)
    requires -1 <= dy <= 1 && -1 <= dx <= 1
    requires forall k | 0 <= k < |s| :: Adjacent(p, s[k]) && In(b, s[k]) && Before(p, s[k], dy, dx)
    requires s' == s + if Visits(b, p, dy, dx) then [Pos(p.x + dx, p.y + dy)] else []
    ensures forall k | 0 <= k < |s'| :: Adjacent(p, s'[k]) && In(b, s'[k]) && Before(p, s'[k], dy, dx + 1)
  {
    forall k | 0 <= k < |s'| ensures Adjacent(p, s'[k]) && In(b, s'[k]) && Before(p, s'[k], dy, dx + 1) {
      if k < |s| {
        assert s'[k] == s[k];
      } else {
        assert s'[k] == Pos(p.x + dx, p.y + dy);
      }
    }
  }

  /** Every in-bounds neighbour before the next offset is listed after one more step. */
  lemma StepComplete(b: Board, p: Pos, dy: int, dx: int, s: seq<Pos>, s': seq<Pos>)
    requires -1 <= dy <= 1 && -1 <= dx <= 1
    requires forall q | Adjacent(p, q) && In(b, q) && Before(p, q, dy, dx) :: q in s
    requires s' == s + if Visits(b, p, dy, dx) then [Pos(p.x + dx, p.y + dy)] else []
    ensures forall q | Adjacent(p, q) && In(b, q) && Before(p, q, dy, dx + 1) :: q in s'
  {
    forall q | Adjacent(p, q) && In(b, q) && Before(p, q, dy, dx + 1) ensures q in s' {
      if q == Pos(p.x + dx, p.y + dy) {
        assert s'[|s|] == q;
      } else {
        assert q in s;
      }
    }
  }

  /** The whole scan lists exactly the in-bounds neighbours. */
  lemma ScanListAll(b: Board, p: Pos)
    ensures forall q :: q in ScanList(b, p, 2, -1) <==> Adjacent(p, q) && In(b, q)
  {
    ScanListBefore(b, p, 2, -1);
  }

  /** The count before (dx, dy) is the number of marked neighbours before it. */
  lemma {:induction false} ScanCountBefore(b: Board, p: Pos, f: CellData -> bool, dy: int, dx: int)
    requires ScanPoint(dy, dx)
    ensures ScanCount(b, p, f, dy, dx) == |MarkedBefore(b, p, f, dy, dx)|
    decreases 4 * (dy + 1) + dx + 1
  {
    if dx == -1 {
      if dy == -1 {
        ScanStart(b, p, f);
      } else {
        ScanCountBefore(b, p, f, dy - 1, 2);
        ScanRow(b, p, f, dy - 1);
      }
    } else {
      ScanCountBefore(b, p, f, dy, dx - 1);
      MarkedStep(b, p, f, dy, dx - 1);
    }
  }

  /** Looking at offset (dx, dy) adds one to the marked count exactly when the scan visits a marked cell there. */
  lemma MarkedStep(b: Board, p: Pos, f: CellData -> bool, dy: int, dx: int)
    requires -1 <= dy <= 1 && -1 <= dx <= 1
    ensures |MarkedBefore(b, p, f, dy, dx + 1)| ==
      |MarkedBefore(b, p, f, dy, dx)| + (if Hits(b, p, f, dy, dx) then 1 else 0)
  {
    var before, after := MarkedBefore(b, p, f, dy, dx), MarkedBefore(b, p, f, dy, dx + 1);
    ScanStep(b, p, f, dy, dx, before, after);
    if Hits(b, p, f, dy, dx) {
      AddCard(before, Pos(p.x + dx, p.y + dy));
    }
  }

  lemma AddCard<T>(s: set<T>, x: T)
    requires x !in s
    ensures |s + {x}| == |s| + 1
  {
  }

  /** The whole scan counts exactly the marked neighbours. */
  lemma ScanCountAll(b: Board, p: Pos, f: CellData -> bool)
    ensures ScanCount(b, p, f, 2, -1) == |Marked(b, p, f)|
  {
    ScanCountBefore(b, p, f, 2, -1);
    ScanEnd(b, p, f);
  }

  lemma SubsetCard<T>(a: set<T>, c: set<T>)
    requires a <= c
    ensures |a| <= |c|
  {
    if a != {} {
      var e :| e in a;
      SubsetCard(a - {e}, c - {e});
    }
  }

  /** A cell has at most 8 marked neighbours. */
  lemma MarkedAtMostEight(b: Board, p: Pos, f: CellData -> bool)
    ensures |Marked(b, p, f)| <= 8
  {
    SubsetCard(Marked(b, p, f), Window(p));
  }

  /** Two boards of one shape that agree on `f` everywhere have the same marked neighbours. */
  lemma MarkedAgree(b: Board, r: Board, p: Pos, f: CellData -> bool)
    requires SameShape(b, r)
    requires forall q | In(b, q) :: f(At(b, q)) == f(At(r, q))
    ensures Marked(b, p, f) == Marked(r, p, f)
  {
    forall q | q in Window(p) && In(b, q) ensures In(r, q) && f(At(b, q)) == f(At(r, q)) {
    }
  }

  predicate IsMine(c: CellData) { c.isMine }

  predicate IsFlagged(c: CellData) { c.isFlagged }

  predicate IsHidden(c: CellData) { !c.isRevealed }

  /** The number of cells of a row satisfying `f`. */
  function CountRow(row: seq<CellData>, f: CellData -> bool): nat
  {
    if row == [] then 0 else (if f(row[0]) then 1 else 0) + CountRow(row[1..], f)
  }

  /** The number of cells of the board satisfying `f` (the length of board.flat().filter(f)). */
  function CountCells(b: Board, f: CellData -> bool): nat
  {
    if b == [] then 0 else CountRow(b[0], f) + CountCells(b[1..], f)
  }

  lemma {:induction false} CountRowPut(row: seq<CellData>, i: nat, c: CellData, f: CellData -> bool)
    requires i < |row|
    ensures CountRow(row[i := c], f) + (if f(row[i]) then 1 else 0) == CountRow(row, f) + (if f(c) then 1 else 0)
  {
    if i > 0 {
      assert row[i := c][1..] == row[1..][i - 1 := c];
      CountRowPut(row[1..], i - 1, c, f);
    }
  }

  /** Replacing one cell changes the count by what the old and the new cell contribute. */
  lemma {:induction false} CountCellsPut(b: Board, q: Pos, c: CellData, f: CellData -> bool)
    requires In(b, q)
    ensures CountCells(Put(b, q, c), f) + (if f(At(b, q)) then 1 else 0) == CountCells(b, f) + (if f(c) then 1 else 0)
  {
    if q.y == 0 {
      assert Put(b, q, c)[1..] == b[1..];
      CountRowPut(b[0], q.x, c, f);
    } else {
      var q' := Pos(q.x, q.y - 1);
      assert Put(b, q, c)[1..] == Put(b[1..], q', c);
      CountCellsPut(b[1..], q', c, f);
    }
  }

  lemma {:induction false} CountRowNone(row: seq<CellData>, f: CellData -> bool)
    requires forall i | 0 <= i < |row| :: !f(row[i])
    ensures CountRow(row, f) == 0
  {
    if row != [] {
      CountRowNone(row[1..], f);
    }
  }

  /** A board with no cell satisfying `f` counts zero. */
  lemma {:induction false} CountCellsNone(b: Board, f: CellData -> bool)
    requires forall q | In(b, q) :: !f(At(b, q))
    ensures CountCells(b, f) == 0
  {
    if b != [] {
      forall i | 0 <= i < |b[0]| ensures !f(b[0][i]) {
        assert In(b, Pos(i, 0));
      }
      CountRowNone(b[0], f);
      forall q | In(b[1..], q) ensures !f(At(b[1..], q)) {
        assert In(b, Pos(q.x, q.y + 1));
      }
      CountCellsNone(b[1..], f);
    }
  }

  lemma {:induction false} CountRowSum(row: seq<CellData>, f: CellData -> bool, g: CellData -> bool, h: CellData -> bool)
    requires forall i | 0 <= i < |row| :: f(row[i]) == (g(row[i]) || h(row[i])) && !(g(row[i]) && h(row[i]))
    ensures CountRow(row, f) == CountRow(row, g) + CountRow(row, h)
  {
    if row != [] {
      CountRowSum(row[1..], f, g, h);
    }
  }

  /** When every cell satisfying `f` satisfies exactly one of `g` and `h`, the counts add up. */
  lemma {:induction false} CountCellsSum(b: Board, f: CellData -> bool, g: CellData -> bool, h: CellData -> bool)
    requires forall q | In(b, q) :: f(At(b, q)) == (g(At(b, q)) || h(At(b, q))) && !(g(At(b, q)) && h(At(b, q)))
    ensures CountCells(b, f) == CountCells(b, g) + CountCells(b, h)
  {
    if b != [] {
      forall i | 0 <= i < |b[0]| ensures f(b[0][i]) == (g(b[0][i]) || h(b[0][i])) && !(g(b[0][i]) && h(b[0][i])) {
        assert In(b, Pos(i, 0));
      }
      CountRowSum(b[0], f, g, h);
      forall q | In(b[1..], q) ensures f(At(b[1..], q)) == (g(At(b[1..], q)) || h(At(b[1..], q))) && !(g(At(b[1..], q)) && h(At(b[1..], q))) {
        assert In(b, Pos(q.x, q.y + 1));
      }
      CountCellsSum(b[1..], f, g, h);
    }
  }

  lemma {:induction false} CountRowSome(row: seq<CellData>, f: CellData -> bool, i: int)
    requires 0 <= i < |row| && f(row[i])
    ensures CountRow(row, f) > 0
  {
    if i > 0 {
      CountRowSome(row[1..], f, i - 1);
    }
  }

  /** A board with a cell satisfying `f` counts at least one. */
  lemma {:induction false} CountCellsSome(b: Board, f: CellData -> bool, q: Pos)
    requires In(b, q) && f(At(b, q))
    ensures CountCells(b, f) > 0
  {
    if q.y == 0 {
      CountRowSome(b[0], f, q.x);
    } else {
      CountCellsSome(b[1..], f, Pos(q.x, q.y - 1));
    }
  }

  lemma {:induction false} CountRowAgree(a: seq<CellData>, c: seq<CellData>, f: CellData -> bool)
    requires |a| == |c| && forall i | 0 <= i < |a| :: f(a[i]) == f(c[i])
    ensures CountRow(a, f) == CountRow(c, f)
  {
    if a != [] {
      CountRowAgree(a[1..], c[1..], f);
    }
  }

  /** Two boards of one shape that agree on `f` cell by cell count the same. */
  lemma {:induction false} CountCellsAgree(b: Board, r: Board, f: CellData -> bool)
    requires SameShape(b, r) && forall q | In(b, q) :: f(At(b, q)) == f(At(r, q))
    ensures CountCells(b, f) == CountCells(r, f)
  {
    if b != [] {
      forall i | 0 <= i < |b[0]| ensures f(b[0][i]) == f(r[0][i]) {
        assert In(b, Pos(i, 0));
      }
      CountRowAgree(b[0], r[0], f);
      forall q | In(b[1..], q) ensures f(At(b[1..], q)) == f(At(r[1..], q)) {
        assert In(b, Pos(q.x, q.y + 1));
      }
      CountCellsAgree(b[1..], r[1..], f);
    }
  }
}
