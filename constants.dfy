// The fixed configuration tables: board dimensions per size and mine density per difficulty.

module Constants {
  import opened Types

  datatype Dimensions = Dimensions(width: nat, height: nat)

  /** Board dimensions per size: every board is at least 9x9, at most 30x16, and never taller than wide. */
  function SizeConfig(size: BoardSize): (r: Dimensions)
    ensures 9 <= r.height <= r.width <= 30 && r.height <= 16
  {
    match size
    case Small => Dimensions(9, 9)
    case Medium => Dimensions(16, 16)
    case Large => Dimensions(30, 16)
  }

  /** Mine density as a whole percentage of the cells: between 10 and 20, in steps of 5. */
  function DifficultyConfig(difficulty: Difficulty): (r: nat)
    ensures 10 <= r <= 20 && r % 5 == 0
  {
    match difficulty
    case Easy => 10
    case Normal => 15
    case Hard => 20
  }

  /** The key under which the leaderboard is kept in the key-value store. */
  const StorageKey: string := "minesweeper_leaderboard"
}
