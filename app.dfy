// The game session: the settings, the board, the status (idle, playing, won, lost), the elapsed
// time and the handlers that the board's cells and the victory dialog call.

module App {
  import opened Types
  import opened Constants
  import opened Grid
  import opened MinesweeperLogic
  import opened StorageService

  /** A board the handlers can work on: rectangular, with recorded coordinates and correct counts. */
  ghost predicate Playable(b: Board)
  {
    Rect(b) && Coordinates(b) && CountsCorrect(b)
  }

  /** Flips the flag of every cell whose recorded coordinates are (x, y); every other cell is kept. */
  function ToggleFlag(b: Board, x: int, y: int): (r: Board)
    ensures SameShape(b, r)
    ensures forall q | In(b, q) ::
      At(r, q) == (if At(b, q).x == x && At(b, q).y == y then At(b, q).(isFlagged := !At(b, q).isFlagged) else At(b, q))
  {
    seq(|b|, j requires 0 <= j < |b| =>
      seq(|b[j]|, i requires 0 <= i < |b[j]| =>
        if b[j][i].x == x && b[j][i].y == y then b[j][i].(isFlagged := !b[j][i].isFlagged) else b[j][i]))
  }

  /** On a board whose cells record their own coordinates, the toggle changes exactly cell (x, y). */
  lemma ToggleFlagExact(b: Board, x: int, y: int)
    requires Coordinates(b) && In(b, Pos(x, y))
    ensures ToggleFlag(b, x, y) == Put(b, Pos(x, y), At(b, Pos(x, y)).(isFlagged := !At(b, Pos(x, y)).isFlagged))
  {
    var p := Pos(x, y);
    var r, s := ToggleFlag(b, x, y), Put(b, p, At(b, p).(isFlagged := !At(b, p).isFlagged));
    forall j | 0 <= j < |b| ensures r[j] == s[j] {
      forall i | 0 <= i < |b[j]| ensures r[j][i] == s[j][i] {
        var q := Pos(i, j);
        assert In(b, q);
        if q != p {
          assert At(s, q) == At(b, q);
        }
      }
    }
  }

  /** Toggling the same cell twice gives back the board. */
  lemma ToggleFlagTwice(b: Board, x: int, y: int)
    ensures ToggleFlag(ToggleFlag(b, x, y), x, y) == b
  {
    var r := ToggleFlag(ToggleFlag(b, x, y), x, y);
    forall j | 0 <= j < |b| ensures r[j] == b[j] {
      forall i | 0 <= i < |b[j]| ensures r[j][i] == b[j][i] {
        assert In(b, Pos(i, j));
      }
    }
  }

  /** A toggle keeps the board playable and moves the flag count by one. */
  lemma ToggleFlagCounts(b: Board, x: int, y: int)
    requires Playable(b) && In(b, Pos(x, y))
    ensures Playable(ToggleFlag(b, x, y))
    ensures CountCells(ToggleFlag(b, x, y), IsMine) == CountCells(b, IsMine)
    ensures CountCells(ToggleFlag(b, x, y), IsFlagged) ==
      if At(b, Pos(x, y)).isFlagged then CountCells(b, IsFlagged) - 1 else CountCells(b, IsFlagged) + 1
  {
    var p := Pos(x, y);
    var c := At(b, p).(isFlagged := !At(b, p).isFlagged);
    ToggleFlagExact(b, x, y);
    CountCellsPut(b, p, c, IsFlagged);
    CountCellsPut(b, p, c, IsMine);
    FlagPutPlayable(b, p, Put(b, p, c));
  }

  /** Flipping one flag keeps the coordinates and the neighbour counts. */
  lemma FlagPutPlayable(b: Board, p: Pos, r: Board)
    requires Playable(b) && In(b, p)
    requires r == Put(b, p, At(b, p).(isFlagged := !At(b, p).isFlagged))
    ensures Playable(r)
  {
    forall q | In(r, q) && !At(r, q).isMine ensures At(r, q).neighborCount == MinesAround(r, q) {
      MarkedAgree(b, r, q, IsMine);
      assert In(b, q) && MinesAround(b, q) == MinesAround(r, q);
    }
  }

  /** Showing cells keeps a board playable. */
  lemma RevealKeepsPlayable(b: Board, r: Board)
    requires Playable(b) && OnlyRevealed(b, r)
    ensures Playable(r)
  {
    OnlyRevealedRect(b, r);
    CountsCorrectKept(b, r);
  }

  /** The mines-remaining counter: mines minus flags, shown as 0 when there are more flags than mines. */
  function MinesRemaining(b: Board): (n: nat)
    ensures n >= CountCells(b, IsMine) - CountCells(b, IsFlagged)
    ensures n == 0 || n == CountCells(b, IsMine) - CountCells(b, IsFlagged)
  {
    var d := CountCells(b, IsMine) - CountCells(b, IsFlagged);
    if d > 0 then d else 0
  }

  /** A left click on `p` takes effect: the game is on and the cell is hidden and unflagged. */
  predicate Clickable(b: Board, status: GameStatus, p: Pos)
  {
    status == Playing && In(b, p) && !At(b, p).isFlagged && !At(b, p).isRevealed
  }

  /** A double click on `p` takes effect: the game is on and the cell is revealed. */
  predicate Chordable(b: Board, status: GameStatus, p: Pos)
  {
    status == Playing && In(b, p) && At(b, p).isRevealed
  }

  /** A right click on `p` takes effect: the game is on and the cell is hidden. */
  predicate Flaggable(b: Board, status: GameStatus, p: Pos)
  {
    status == Playing && In(b, p) && !At(b, p).isRevealed
  }

  /** The state of the game screen. */
  class Game {
    var settings: GameSettings
    var board: Board
    var status: GameStatus
    var time: nat
    var lossMessage: Option<string>
    var showLeaderboard: bool
    const store: LeaderboardStore

    ghost predicate Valid()
      reads this
    {
      Playable(board)
    }

    /** The initial state, before the first board is dealt. */
    constructor(store: LeaderboardStore)
      ensures Valid()
      ensures settings == GameSettings(Small, Easy) && board == [] && status == Idle && time == 0
      ensures lossMessage == None && !showLeaderboard && this.store == store
    {
      settings := GameSettings(Small, Easy);
      board := [];
      status := Idle;
      time := 0;
      lossMessage := None;
      showLeaderboard := false;
      this.store := store;
    }

    /** Deals a new board for the current settings and starts playing with the clock at 0. */
    method InitGame(firstClick: Option<Pos>, rolls: seq<Pos>)
      requires EnoughRolls(settings, firstClick, rolls)
      modifies this
      ensures Valid() && Generated(board, settings, firstClick, rolls)
      ensures status == Playing && time == 0 && lossMessage == None
      ensures settings == old(settings) && showLeaderboard == old(showLeaderboard)
      ensures MinesRemaining(board) == MineCount(settings)
    {
      board := CreateBoard(settings, firstClick, rolls);
      status := Playing;
      time := 0;
      lossMessage := None;
      CountCellsNone(board, IsFlagged);
    }

    /** Picking another size or difficulty deals a new board for it. */
    method ChangeSettings(newSettings: GameSettings, rolls: seq<Pos>)
      requires EnoughRolls(newSettings, None, rolls)
      modifies this
      ensures Valid() && Generated(board, newSettings, None, rolls)
      ensures settings == newSettings && status == Playing && time == 0 && lossMessage == None
      ensures showLeaderboard == old(showLeaderboard)
      ensures MinesRemaining(board) == MineCount(settings)
    {
      settings := newSettings;
      InitGame(None, rolls);
    }

    /** A left click on (x, y): a mine loses the game and shows every mine; a safe cell is revealed
        with the flood fill and the game is won when the board is settled. */
    method HandleCellClick(x: int, y: int)
      requires Valid() && (status == Playing ==> In(board, Pos(x, y)))
      modifies this
      ensures Valid()
      ensures settings == old(settings) && time == old(time) && lossMessage == old(lossMessage)
      ensures showLeaderboard == old(showLeaderboard)
      ensures !Clickable(old(board), old(status), Pos(x, y)) ==> board == old(board) && status == old(status)
      ensures Clickable(old(board), old(status), Pos(x, y)) && old(board)[y][x].isMine ==>
        board == RevealAllMines(old(board)) && status == Lost && !CheckWin(board)
      ensures Clickable(old(board), old(status), Pos(x, y)) && !old(board)[y][x].isMine ==>
        && (exists trail :: Flooded(old(board), board, Pos(x, y), trail))
        && (forall q | NewlyRevealed(old(board), board, q) :: !At(old(board), q).isMine)
        && status == (if CheckWin(board) then Won else Playing)
    {
      if status != Playing || board[y][x].isFlagged || board[y][x].isRevealed {
        return;
      }
      if board[y][x].isMine {
        LostIsNotWon(board, Pos(x, y));
        board := RevealAllMines(board);
        RevealKeepsPlayable(old(board), board);
        status := Lost;
        return;
      }
      var newBoard;
      ghost var trail;
      newBoard, trail := RevealCell(board, x, y);
      RevealKeepsPlayable(board, newBoard);
      board := newBoard;
      assert Flooded(old(board), board, Pos(x, y), trail);
      if CheckWin(board) {
        status := Won;
      }
    }

    /** A double click on (x, y): a chord. When the chord leaves the board as it was nothing happens;
        otherwise the new board is kept, and the game is lost if it exploded and won if it is settled. */
    method HandleCellDoubleClick(x: int, y: int)
      requires Valid() && (status == Playing ==> In(board, Pos(x, y)))
      modifies this
      ensures Valid()
      ensures settings == old(settings) && time == old(time) && lossMessage == old(lossMessage)
      ensures showLeaderboard == old(showLeaderboard)
      ensures !Chordable(old(board), old(status), Pos(x, y)) ==> board == old(board) && status == old(status)
      ensures OnlyRevealed(old(board), board)
      ensures board == old(board) ==> status == old(status)
      ensures Chordable(old(board), old(status), Pos(x, y)) && !Fires(old(board), Pos(x, y)) ==> board == old(board)
      ensures Chordable(old(board), old(status), Pos(x, y)) && Fires(old(board), Pos(x, y)) ==>
        && (forall q | Near(old(board), Pos(x, y), q) && !At(old(board), q).isFlagged :: At(board, q).isRevealed)
        && Closed(old(board), board)
      ensures old(status) == Playing && status == Lost ==>
        && (exists q | Near(old(board), Pos(x, y), q) :: Live(At(old(board), q)))
        && (forall q | In(board, q) && At(board, q).isMine :: At(board, q).isRevealed)
        && !CheckWin(board)
      ensures (Chordable(old(board), old(status), Pos(x, y)) && Fires(old(board), Pos(x, y))
        && exists q | Near(old(board), Pos(x, y), q) :: Live(At(old(board), q))) ==> status == Lost
      ensures board != old(board) && status != Lost ==>
        && (forall q | NewlyRevealed(old(board), board, q) :: !At(old(board), q).isMine)
        && status == (if CheckWin(board) then Won else Playing)
      ensures status != Lost ==> FlagsKept(old(board), board)
      ensures forall q | NewlyRevealed(old(board), board, q) && At(old(board), q).isFlagged ::
        status == Lost && At(old(board), q).isMine
      ensures exists trail ::
                && Spread(old(board), board, Pos(x, y), trail)
                && (forall q | NewlyRevealed(old(board), board, q) :: q in trail || (status == Lost && At(old(board), q).isMine))
    {
      ghost var none: seq<Pos> := [];
      assert Spread(board, board, Pos(x, y), none);
      if status != Playing || !board[y][x].isRevealed {
        return;
      }
      var newBoard, exploded, changed;
      ghost var trail;
      newBoard, exploded, changed, trail := ChordReveal(board, x, y);
      if !changed {
        return;
      }
      RevealKeepsPlayable(board, newBoard);
      board := newBoard;
      if exploded {
        status := Lost;
      } else if CheckWin(board) {
        status := Won;
      }
    }

    /** A right click on (x, y) flips its flag while the game is on and the cell is hidden. */
    method HandleContextMenu(x: int, y: int)
      requires Valid() && (status == Playing ==> In(board, Pos(x, y)))
      modifies this
      ensures Valid()
      ensures settings == old(settings) && status == old(status) && time == old(time)
      ensures lossMessage == old(lossMessage) && showLeaderboard == old(showLeaderboard)
      ensures !Flaggable(old(board), old(status), Pos(x, y)) ==> board == old(board)
      ensures Flaggable(old(board), old(status), Pos(x, y)) ==>
        var c := old(board)[y][x];
        && board == Put(old(board), Pos(x, y), c.(isFlagged := !c.isFlagged))
        && CountCells(board, IsMine) == CountCells(old(board), IsMine)
        && CountCells(board, IsFlagged) == if c.isFlagged then CountCells(old(board), IsFlagged) - 1 else CountCells(old(board), IsFlagged) + 1
    {
      if status != Playing || board[y][x].isRevealed {
        return;
      }
      ToggleFlagExact(board, x, y);
      ToggleFlagCounts(board, x, y);
      board := ToggleFlag(board, x, y);
    }

    /** Saving a won game: the entry (with the given id and date) goes to the leaderboard, which is
        then shown, and the session goes back to idle. */
    method HandleSaveWin(playerName: string, id: string, date: string)
      modifies this, store
      ensures settings == old(settings) && board == old(board) && time == old(time)
      ensures lossMessage == old(lossMessage)
      ensures status == Idle && showLeaderboard
      ensures store.items == old(store.items)[StorageKey := Serialized(store.GetLeaderboard())]
      ensures var e := LeaderboardEntry(id, playerName, time, date, settings.size, settings.difficulty);
        && SortedByTime(store.GetLeaderboard())
        && multiset(store.GetLeaderboard()) == multiset(old(store.GetLeaderboard())) + multiset{e}
        && forall t :: WithTime(store.GetLeaderboard(), t) == WithTime(old(store.GetLeaderboard()), t) + (if t == e.time then [e] else [])
    {
      var updated := store.SaveLeaderboardEntry(EntryDraft(playerName, time, settings.size, settings.difficulty), id, date);
      showLeaderboard := true;
      status := Idle;
    }

    /** One second of the clock, which runs only while a game is being played. */
    method Tick()
      modifies this
      ensures time == if old(status) == Playing then old(time) + 1 else old(time)
      ensures settings == old(settings) && board == old(board) && status == old(status)
      ensures lossMessage == old(lossMessage) && showLeaderboard == old(showLeaderboard)
    {
      if status == Playing {
        time := time + 1;
      }
    }
  }
}
