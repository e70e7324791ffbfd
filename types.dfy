// The records and enumerations shared by the game engine, the session and the leaderboard.

module Types {

  datatype Option<T> = None | Some(value: T)

  datatype BoardSize = Small | Medium | Large

  datatype Difficulty = Easy | Normal | Hard

  datatype GameSettings = GameSettings(size: BoardSize, difficulty: Difficulty)

  /** A grid coordinate: column x, row y. */
  datatype Pos = Pos(x: int, y: int)

  /** One square of the minefield; the cell remembers its own coordinates. */
  datatype CellData = CellData(
    x: int,
    y: int,
    isMine: bool,
    isRevealed: bool,
    isFlagged: bool,
    neighborCount: int)

  /** Rows of cells, indexed board[y][x]. */
  type Board = seq<seq<CellData>>

  datatype GameStatus = Idle | Playing | Won | Lost

  datatype LeaderboardEntry = LeaderboardEntry(
    id: string,
    playerName: string,
    time: int,
    date: string,
    size: BoardSize,
    difficulty: Difficulty)

  /** A leaderboard entry before the store has given it an id and a date. */
  datatype EntryDraft = EntryDraft(
    playerName: string,
    time: int,
    size: BoardSize,
    difficulty: Difficulty)
}
