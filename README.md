# Minesweeper engine, game session and leaderboard — a Dafny model

This project models the core of a browser Minesweeper game (`gemini-minesweeper`):

- the board engine: mine placement with an optional safe first click, neighbour counting, the stack-based flood fill that a click on a cell starts, the chorded reveal that a double click starts, and the win test;
- the game session: the settings, board, status, timer and the click, double-click, right-click and save-win handlers that drive the engine;
- the leaderboard: entries kept in a key-value store, appended and re-sorted by time, with a best-time lookup per board size and difficulty.

The board is a value `seq<seq<CellData>>` indexed `[y][x]`, as the engine never mutates a board it shares: it copies a board before changing it, and hands an unchanged board back as it was. The loops of the engine (placement, counting, flood fill, neighbour scan, chord) are methods with `while`/`for` loops, proved against predicates on their input and output boards. The session is a class whose fields the handlers overwrite. The store is a class holding a `map` from keys to stored values.

Main results:

- Board generation: a generated board has the configured dimensions and coordinates, exactly `floor(width*height*density)` mines, none of them at the first click, all cells hidden and unflagged, and correct neighbour counts.
- The flood fill only reveals cells. It never crosses a flag and it is closed: every neighbour of a zero cell that this fill revealed is revealed or flagged. Each revealed cell is reached through zero cells from the clicked one, recorded by a ghost trail. With correct counts and a safe start it reveals no mine.
- The flood fill's outcome is unique (`FloodedUnique`).
- Separately, a second fill from a cell that the first fill revealed changes nothing (`FloodedIdempotent`).
- The chord is a no-op (same board, `changed` false) unless it fires. Once it fires, every unflagged neighbour is revealed. It explodes only if a neighbour was an unflagged hidden mine; on a board with correct counts it always explodes then. When it explodes, every mine is shown.
- The leaderboard sort is a stable sort by time, so the new entry goes after the entries it ties with.

Randomness is an oracle sequence `rolls` of sampled coordinates. The entry id and date are parameters. The density table holds whole percentages.

## Model

| member | source | states |
|---|---|---|
| MinesweeperLogic.MineCount | utils/minesweeperLogic.ts:6-8 | the mine count leaves at least two cells free on every configured board, so placement that also skips the first click can finish |
| Constants.SizeConfig | constants.ts:4-8 | the table Small 9x9, Medium 16x16, Large 30x16; its contract: every board is at least 9x9, at most 30x16, and never taller than wide |
| Constants.DifficultyConfig | constants.ts:10-14 | the densities Easy 10, Normal 15, Hard 20, held as whole percentages for the source's 0.1/0.15/0.2; its contract: between 10 and 20 in steps of 5 |
| MinesweeperLogic.MineCountTable | constants.ts:4-14 | with the 9x9/16x16/30x16 sizes and 10/15/20 % densities, the mine counts are 8/12/16, 25/38/51 and 48/72/96 |
| MinesweeperLogic.CountMines | utils/minesweeperLogic.ts:43-56 | the scan counts exactly the mines among the in-bounds neighbours (centre excluded), at most 8 |
| MinesweeperLogic.CountMinesCell | utils/minesweeperLogic.ts:47-52 | one step of the neighbour scan of countMines: the count grows by that step's tally (one exactly when the offset cell is in bounds, is not the centre and is a mine); Grid.ScanCountAll says what the whole scan counts |
| MinesweeperLogic.CreateBoard | utils/minesweeperLogic.ts:5-41 | the new board is height x width, each cell records its coordinates, is hidden and unflagged; exactly MineCount mines, each at a sampled coordinate other than the first click; every safe cell's count is its mined neighbours, mines keep 0 |
| MinesweeperLogic.PlantMines | utils/minesweeperLogic.ts:17-29 | the rejection-sampling loop terminates when enough distinct legal coordinates are sampled and plants exactly mineCount mines, never at the first click, touching nothing else |
| MinesweeperLogic.UnminedShrinks | utils/minesweeperLogic.ts:19-28 | one draw loses at most the drawn candidate, and none when the draw is rejected: the termination argument of the placement loop |
| MinesweeperLogic.FillCounts | utils/minesweeperLogic.ts:31-38 | every safe cell gets the number of mines around it, mines and all other fields unchanged |
| MinesweeperLogic.PushNeighbors | utils/minesweeperLogic.ts:73-82 | the stack grows by the in-bounds neighbours of the cell and by nothing else |
| MinesweeperLogic.PushNeighbor | utils/minesweeperLogic.ts:75-80 | one step of the neighbour scan of revealCell: the stack grows by what that step sees (the offset cell exactly when it is in bounds and is not the popped cell itself); Grid.ScanListAll says what the whole scan lists |
| MinesweeperLogic.PopAndReveal | utils/minesweeperLogic.ts:64-83 | one pop keeps the flood-fill invariant and either reveals a hidden cell or shrinks the stack |
| MinesweeperLogic.RevealCell | utils/minesweeperLogic.ts:58-87 | result only turns hidden cells visible, never a flagged one; a revealed or flagged start gives the board back; the fill is closed around the zero cells it revealed and each revealed cell is reached from the start through zero cells; with correct counts and a safe start no mine is revealed |
| MinesweeperLogic.TrailSafe | utils/minesweeperLogic.ts:72 | spreading only from safe zero cells never reaches a mine when counts are correct |
| MinesweeperLogic.FloodedUnique | utils/minesweeperLogic.ts:63-84 | any two boards satisfying the flood-fill outcome from the same cell are equal: the order of pops does not matter |
| MinesweeperLogic.FloodedIdempotent | utils/minesweeperLogic.ts:68 | filling again from the same cell on the result changes nothing |
| MinesweeperLogic.CountsCorrectKept | utils/minesweeperLogic.ts:70 | revealing cells never disturbs the neighbour counts |
| MinesweeperLogic.ClosedTrans | utils/minesweeperLogic.ts:115-124 | two closed fills in a row give a closed fill, as the chord's successive fills do |
| MinesweeperLogic.ScanNeighbors | utils/minesweeperLogic.ts:96-108 | the chord's scan lists exactly the in-bounds neighbours and counts exactly the flagged ones |
| MinesweeperLogic.ScanNeighborsRow | utils/minesweeperLogic.ts:99-107 | the inner loop over one row of offsets extends the list and the flag count exactly by that row's in-bounds neighbours and flagged ones, in scan order |
| MinesweeperLogic.ScanNeighborsCell | utils/minesweeperLogic.ts:100-106 | one step of the neighbour scan of chordReveal: the list grows by what that step sees and the flag count by its tally (the cell exactly when it is in bounds and not the centre, one more flag exactly when that cell is also flagged); Grid.ScanListAll and Grid.ScanCountAll say what the whole scan gives |
| MinesweeperLogic.ChordStep | utils/minesweeperLogic.ts:115-124 | handling one more neighbour keeps the chord's invariant: only reveals, closed, spread from the chorded cell, no flag crossed, every handled unflagged neighbour revealed or `exploded` set by a hidden mine, `changed` iff the board differs |
| MinesweeperLogic.ChordLoop | utils/minesweeperLogic.ts:112-124 | after the loop over all neighbours, every unflagged one is revealed or `exploded` is set by a hidden mine; the board only gains revealed cells, no flag is crossed, the fills are closed and spread from the chorded cell |
| MinesweeperLogic.ChordFire | utils/minesweeperLogic.ts:112-131 | once the chord fires: only reveals, every unflagged neighbour ends revealed, explodes only on an unflagged hidden neighbouring mine (always then with correct counts), and an explosion shows every mine and leaves a board that is not won; a flagged cell is revealed only by an explosion and only when it is a mine |
| MinesweeperLogic.ChordReveal | utils/minesweeperLogic.ts:89-134 | only reveals; changed iff the board differs; no-op unless the cell is revealed, numbered and matched by its flag count; explodes only on an unflagged hidden neighbouring mine, and always then when counts are correct; an explosion shows every mine and leaves a board that is not won; a firing chord reveals every unflagged neighbour, closed and spread from the chorded cell; without an explosion no flag is crossed, and with one the only flagged cells revealed are mines; no mine is revealed without an explosion when counts are correct |
| MinesweeperLogic.ChordQuiet | utils/minesweeperLogic.ts:115-124 | after a loop without explosion every unflagged neighbour is revealed and, with correct counts, none was a live mine |
| MinesweeperLogic.ChordExplode | utils/minesweeperLogic.ts:126-131 | after an explosion all mines are shown, the board has changed and the unflagged neighbours are revealed; the only flagged cells revealed are mines |
| MinesweeperLogic.ChordExplodeNotWon | utils/minesweeperLogic.ts:126-131 | after an explosion the board is not won, since the mine that was hit is now shown |
| MinesweeperLogic.Fires | utils/minesweeperLogic.ts:91-110 | the chord goes ahead only on a revealed, numbered cell whose number equals its flagged in-bounds neighbours (the contracts of ChordReveal and Game.HandleCellDoubleClick use it) |
| MinesweeperLogic.CheckWin | utils/minesweeperLogic.ts:136-142 | a board is won when every cell is settled: each mine hidden and each safe cell revealed (WinByCounts gives the independent reading) |
| MinesweeperLogic.WinByCounts | utils/minesweeperLogic.ts:136-142 | a board is won iff no mine is revealed and the hidden cells are as many as the mines, i.e. revealed cells are exactly the safe ones |
| MinesweeperLogic.LostIsNotWon | utils/minesweeperLogic.ts:136-142 | a board with a mine whose mines are all shown is never won |
| MinesweeperLogic.RevealAllMines | utils/minesweeperLogic.ts:126-131 | shows every mine and changes nothing else |
| StorageService.InsertByTime | services/storageService.ts:23 | inserting into a time-sorted list keeps it sorted, one longer, a permutation of the old list plus the entry |
| StorageService.InsertStable | services/storageService.ts:23 | insertion places the new entry after every old entry with the same time, old ties in order |
| StorageService.SortByTime | services/storageService.ts:23 | the result is sorted by ascending time and a permutation of the input |
| StorageService.SortStable | services/storageService.ts:23 | the sort is stable: entries of equal time keep their input order |
| StorageService.Matching | services/storageService.ts:29 | keeps exactly the entries of the size and difficulty, the first one being the first match in the list |
| StorageService.LeaderboardStore.GetLeaderboard | services/storageService.ts:5-13 | an absent key or unparsable data reads as the empty list; otherwise the stored entries |
| StorageService.LeaderboardStore.SaveLeaderboardEntry | services/storageService.ts:15-26 | the list written under the key is the one returned: one longer, the old entries plus the new entry with the given id and date, sorted by time, ties in old order with the new entry last |
| StorageService.LeaderboardStore.GetBestTime | services/storageService.ts:28-31 | none iff no entry matches; otherwise the first matching entry, which on a sorted store has the least time among matches |
| StorageService.FirstIsFastest | services/storageService.ts:28-31 | in a time-sorted list the first match has the least time of all matches |
| App.ToggleFlag | App.tsx:93-99 | same shape; a cell whose recorded coordinates are (x, y) has its flag flipped, every other cell is kept as it was |
| App.ToggleFlagExact | App.tsx:93-99 | on a board whose cells record their coordinates, the right-click map flips the flag of exactly cell (x, y) |
| App.ToggleFlagTwice | App.tsx:93-99 | toggling the same cell twice restores the board |
| App.ToggleFlagCounts | App.tsx:93-100 | a toggle keeps counts and coordinates intact, keeps the mines, and moves the flag count by one |
| App.MinesRemaining | App.tsx:133 | the remaining-mines display is mines minus flags, clamped at 0, never negative |
| App.Game.constructor | App.tsx:14-23 | the initial session: small/easy, empty board, idle, time 0, no loss message, leaderboard hidden |
| App.Game.InitGame | App.tsx:28-39 | a freshly generated board for the settings, status playing, time 0, loss message cleared, all mines remaining |
| App.Game.ChangeSettings | App.tsx:42-47 | new settings deal a new board for them (the effect re-running initGame) |
| App.Game.HandleCellClick | App.tsx:49-69 | ignored unless playing on a hidden unflagged cell; a mine shows every mine and loses, on a board that is not won; a safe cell installs the flood-fill result, revealing no mine, and wins iff the board is won |
| App.Game.HandleCellDoubleClick | App.tsx:71-87 | ignored unless playing on a revealed cell; a chord that leaves the board as it was changes nothing; a firing chord reveals every unflagged neighbour and is closed; every newly revealed cell is reached from the chorded cell through zero cells, unless it is a mine shown by a loss; no flag is crossed unless the game is lost, and then only mines; lost exactly when an unflagged hidden mine was among the neighbours, and then every mine is shown and the board is not won; otherwise no mine is revealed and the game is won iff the board is won |
| App.Game.HandleContextMenu | App.tsx:89-101 | ignored unless playing on a hidden cell; otherwise flips exactly that cell's flag and moves the flag count by one |
| App.Game.HandleSaveWin | App.tsx:103-112 | the entry with the session's time, size and difficulty is added to the sorted leaderboard, which is then shown, and the session becomes idle; the store changes only under its storage key, and every other key keeps its value |
| App.Game.Tick | App.tsx:36-38 | the clock advances by one exactly while a game is being played |

## Left out

- Rendering: the React components and the JSX of the game screen are not modelled.
- The loss message: the text-generation service and the asynchronous `generateLossMessage().then(...)` calls are left out (App.tsx:58, 82). The service is an external network collaborator that affects no game state; the message field is only ever reset.
- Timer scheduling: `setInterval`/`clearInterval` become `Tick`, which advances the time exactly while the status is playing. This is the status in which the interval runs, since every transition out of playing clears it.
- Randomness: `Math.random` in mine placement becomes the sequence of sampled coordinates. Its precondition says that enough distinct legal coordinates are sampled; an unlucky random source that never does so would loop forever in the source.
- The entry id and date: `Math.random().toString(36)` and `new Date().toISOString()` become parameters. The uniqueness of ids is not modelled.
- Serialization: `localStorage`, `JSON.stringify` and `JSON.parse` become a map from keys to stored values, where a stored value is either a list of entries or unparsable text. Stored JSON that parses to something other than an array (`"null"`, say) is not modelled.
- Densities: floating-point densities are whole percentages. The floor of `width*height*density` agrees with the integer formula on all nine configurations.
- Update in place and aliasing: boards are values. `revealCell` and `createBoard` mutate boards they own, so no aliasing is observable. The chord's "same board" identity test is the `changed` result of `ChordReveal`, proved equivalent to the board differing.
- The first click: `initGame` is only ever called without a first click (App.tsx:43, 124), so the safe-first-click guarantee of `createBoard` never takes effect in the game. The model keeps the parameter as written and does not defer generation.
- ChordReveal: "explodes whenever a neighbour is an unflagged hidden mine" is proved only for boards with correct counts. On other boards an earlier flood fill of the chord can reveal such a mine before the loop reaches it.
- CheckWin holds on the empty board that the session holds before the first game. The handlers never test it there, since they act only while playing.
