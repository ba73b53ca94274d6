# Arcade hub game cores in Dafny

This project models the game logic of four browser games from an arcade hub. Each game is a single script with global state that key handlers and an animation loop mutate.

- **Mana Merge** is a 4 x 4 tile-merge puzzle. `slide` squeezes the tiles of one line toward its start and merges equal neighbours once, adding each merged value to the score. `move` slides every row or column in one of four directions, and drops a new tile into a random empty cell when anything changed. `resetGrid` clears the board and places two tiles.
- **Pixel Arena** is a top-down shooter. The player moves by intent times speed and is clamped to the canvas. Bullets fly upwards and are dropped once above the top. An enemy spawns every 60 ticks. Each enemy falls, costs 10 hp on contact with the player, and is destroyed by any bullet it overlaps, scoring 10 per bullet.
- **Rogue Protocol** is a dodge-and-collect game. Enemies spawn every 80 ticks and items every 200. Both fall; they leave the field below y = 500. Enemy contact costs 10 hp; item pickup scores 5.
- **Sky Forge** is a climbing platformer. Twelve platforms are laid out evenly up the canvas. Each tick the player moves horizontally and falls under gravity, lands on platforms only while falling, and the platforms scroll up. Platforms leaving the top are replaced below the bottom for 5 points each. Falling out of the bottom costs 30 hp and respawns the player near the top; at 0 hp the game ends.

Layout:

- `arcade.dfy` (module `Arcade`) holds what the games share: the strict bounding-box test, the player clamp, `Math.max(lo, Math.min(hi, v))`, and fixed-period spawn timers.
- `tiles.dfy` (module `Tiles`) models `slide` on one line. It has specification functions (`NonZero`, `Merge`, `Slid`) and a method `Slide` that uses the source's in-place merge loop over an array.
- `mana_merge.dfy`, `pixel_arena.dfy`, `rogue_protocol.dfy` and `sky_forge.dfy` each hold one game. The game's globals are the fields of a `Game` class, and the functions and handlers are its methods.
- Each state-changing method states its new state in terms of a specification function of the old state. The lemmas beside those functions prove what the game promises: conservation of the tile total, score bookkeeping, which entities survive a tick, and the session invariant.

How the environment is modelled:

- Every `Math.random()` call becomes a real parameter in [0, 1), and the source's formula is applied to it. The one exception is the new tile's value in Mana Merge, which is a parameter that must be 2 or 4.
- The canvas size is a constructor parameter. Sky Forge takes it in whole pixels, because `Math.floor(canvas.height / 11)` becomes natural-number division.
- Arithmetic is exact: Dafny `real` for positions and speeds, `int` for scores and hp.

## Model

| member | source | states |
|---|---|---|
| Arcade.Overlaps | gaming-hub-final/games/pixel-arena/game.js:86 | the strict bounding-box test every game writes inline (also pixel-arena 95-98 and rogue-protocol 64, 75). Definition only; OverlapsSymmetric and TouchingEdgesDoNotOverlap prove its properties |
| Arcade.Fires | gaming-hub-final/games/pixel-arena/game.js:80 | `spawnTimer % period === 0`. Definition only; FiringsCount and RogueProtocol.BothSpawn prove its properties |
| Arcade.Firings | gaming-hub-final/games/pixel-arena/game.js:79-80 | how many ticks fire while the timer goes from t to t + n. Definition only; FiringsCount proves its closed form |
| Arcade.OverlapsSymmetric | gaming-hub-final/games/pixel-arena/game.js:94-99 | the overlap test does not depend on which rectangle comes first, so the bullet-first and player-first tests agree |
| Arcade.TouchingEdgesDoNotOverlap | gaming-hub-final/games/pixel-arena/game.js:86 | the test is strict: rectangles that only share an edge do not collide |
| Arcade.ClampSpan | gaming-hub-final/games/pixel-arena/game.js:72-75 | on a field at least as wide as the player, the result lies inside the field; a position already inside is kept; the result never exceeds a non-negative start; on a narrower field the second test wins |
| Arcade.MaxMin | gaming-hub-final/games/sky-forge/game.js:133 | on a non-empty range the result lies in [lo, hi], and a value already in range is kept |
| Arcade.FiringsCount | gaming-hub-final/games/pixel-arena/game.js:79-80 | a timer incremented once per tick and firing on multiples of p fires exactly (t + n) / p - t / p times in n ticks |
| Tiles.Reverse | gaming-hub-final/games/mana-merge/game.js:88-89 | the reversed line has the same length, and element k is element \|s\|-1-k of the input |
| Tiles.ReverseReverse | gaming-hub-final/games/mana-merge/game.js:88-89 | reversing twice gives back the line, so the right and down slides undo their reversal |
| Tiles.SumReverse | gaming-hub-final/games/mana-merge/game.js:88-89 | reversal keeps the sum of a line |
| Tiles.NonZero | gaming-hub-final/games/mana-merge/game.js:64 | `filter(val=>val)` keeps only non-zero cells and never lengthens the line |
| Tiles.NonZeroAppend | gaming-hub-final/games/mana-merge/game.js:64 | the filter distributes over concatenation |
| Tiles.NonZeroSum | gaming-hub-final/games/mana-merge/game.js:64 | the filter keeps the sum |
| Tiles.NonZeroShortens | gaming-hub-final/games/mana-merge/game.js:64 | a line with no zero is kept as it is; a line with a zero gets strictly shorter |
| Tiles.Merge | gaming-hub-final/games/mana-merge/game.js:65-71 | a merge pass never lengthens the line |
| Tiles.MergeGain | gaming-hub-final/games/mana-merge/game.js:68 | the score of a pass is the value of every tile it creates. Definition only; MergeGainNonNegative, MergeGainZero and MergeRun prove its properties, and MergePass computes it |
| Tiles.MergeNonZero | gaming-hub-final/games/mana-merge/game.js:65-72 | once the zeros the pass leaves are filtered out, every tile is non-zero |
| Tiles.MergeSum | gaming-hub-final/games/mana-merge/game.js:65-71 | the merge pass keeps the sum of the tiles |
| Tiles.MergeKeepsLength | gaming-hub-final/games/mana-merge/game.js:65-71 | a pass that merges nothing gives back its input and scores nothing |
| Tiles.MergeOnce | gaming-hub-final/games/mana-merge/game.js:65-71 | each output tile of a pass is an input tile or twice one |
| Tiles.MergePairing | gaming-hub-final/games/mana-merge/game.js:65-71 | no tile merges twice in one pass: the pass cuts the line into consecutive pieces that cover it. A piece is either one cell passed through, which is never followed by an equal cell because the leftmost pair merges first, or two equal cells merged into their double. So [2,2,4] gives [4,4] |
| Tiles.MergeRun | gaming-hub-final/games/mana-merge/game.js:65-71 | a run of n equal tiles v becomes n/2 tiles 2v followed by n%2 tiles v, scoring (n/2)*2v |
| Tiles.MergeGainNonNegative | gaming-hub-final/games/mana-merge/game.js:68 | for positive tiles the score added by a pass is non-negative |
| Tiles.MergeGainZero | gaming-hub-final/games/mana-merge/game.js:65-71 | a pass scores nothing if and only if no two neighbours are equal, in which case the line comes out unchanged |
| Tiles.Zeros | gaming-hub-final/games/mana-merge/game.js:73 | a line of k empty cells |
| Tiles.Pad | gaming-hub-final/games/mana-merge/game.js:73 | the padded line is n long if the line was shorter, and keeps its length otherwise |
| Tiles.PadSpec | gaming-hub-final/games/mana-merge/game.js:73 | padding keeps the line as a prefix and adds only empty cells, so a line at least n long is left alone |
| Tiles.Slid | gaming-hub-final/games/mana-merge/game.js:63-75 | what `slide` returns: filter, merge, pad. Definition only; SlideShape, SlideSum, SlideKeepsTiles and SlideLeavesRoom prove its properties, and Slide computes it |
| Tiles.SlideGain | gaming-hub-final/games/mana-merge/game.js:68 | what `slide` adds to the score. Definition only; SlideKeepsTiles proves it non-negative, and Slide computes it |
| Tiles.SlideShape | gaming-hub-final/games/mana-merge/game.js:63-75 | a slid line is the merged non-zero tiles, all non-zero, followed only by zeros; it has length 4 when the input had at most 4 cells |
| Tiles.SlideSum | gaming-hub-final/games/mana-merge/game.js:63-75 | sliding keeps the sum of the line |
| Tiles.SlideLeavesRoom | gaming-hub-final/games/mana-merge/game.js:63-75 | a 4-cell line that a slide changes has an empty cell afterwards |
| Tiles.SlideExampleMergeFirstPair | gaming-hub-final/games/mana-merge/game.js:63-75 | [2,2,4,0] slides to [4,4,0,0] and scores 4: a merged tile does not merge again with its new neighbour |
| Tiles.SlideExampleGapThenPair | gaming-hub-final/games/mana-merge/game.js:63-75 | [2,0,2,2] slides to [4,2,0,0] and scores 4: gaps are closed before merging, and the leftmost pair merges first |
| Tiles.SlideExampleFourEqual | gaming-hub-final/games/mana-merge/game.js:63-75 | [2,2,2,2] slides to [4,4,0,0] and scores 8 |
| Tiles.DoubleTile | gaming-hub-final/games/mana-merge/game.js:67 | doubling a tile value gives a tile value |
| Tiles.NonZeroTiles | gaming-hub-final/games/mana-merge/game.js:64 | filtering a line of tile values leaves tile values |
| Tiles.MergeTiles | gaming-hub-final/games/mana-merge/game.js:65-71 | merging tile values yields tile values (powers of two of at least 2) |
| Tiles.SlideKeepsTiles | gaming-hub-final/games/mana-merge/game.js:63-75 | sliding a line of tile values yields tile values and a non-negative score |
| Tiles.SlideBackProperties | gaming-hub-final/games/mana-merge/game.js:88-89 | the reversed slide used for right and down keeps the sum, has length 4, keeps tile values with a non-negative score, and leaves an empty cell if it changed the line |
| Tiles.SlidBack | gaming-hub-final/games/mana-merge/game.js:88-89 | `slide(row.reverse()).reverse()`, the slide toward the last cell. Definition only; SlideBackProperties proves its properties |
| Tiles.SlideBackGain | gaming-hub-final/games/mana-merge/game.js:89 | what the reversed slide adds to the score. Definition only; SlideBackProperties proves it non-negative on tiles |
| Tiles.MergePass | gaming-hub-final/games/mana-merge/game.js:65-71 | the in-place loop over the array leaves, once zeros are filtered out, exactly the merged line, and returns exactly the score of the pass |
| Tiles.PadLine | gaming-hub-final/games/mana-merge/game.js:73 | the `while(arr.length<gridSize) arr.push(0)` loop returns the line padded to length 4 |
| Tiles.Slide | gaming-hub-final/games/mana-merge/game.js:63-75 | `slide` returns the slid line and the score it adds |
| ManaMerge.EmptyGrid | gaming-hub-final/games/mana-merge/game.js:21 | the cleared board has `size` rows of `size` zeros, and at size 4 it is a board of tile values |
| ManaMerge.GridExt | gaming-hub-final/games/mana-merge/game.js:14 | two boards with the same cells are equal |
| ManaMerge.Column | gaming-hub-final/games/mana-merge/game.js:95-96 | the collected column has 4 cells, and cell i is row i's cell j |
| ManaMerge.Total | gaming-hub-final/games/mana-merge/game.js:78-113 | the sum of all cells. Definition only; TransformedConserves, PlaceTileTotal and AfterMoveTotal prove how moves and placements change it |
| ManaMerge.EmptyInRow | gaming-hub-final/games/mana-merge/game.js:31-33 | every collected cell lies in row i before column m and is empty |
| ManaMerge.EmptyRows | gaming-hub-final/games/mana-merge/game.js:30-34 | every collected cell lies in the first n rows and is empty |
| ManaMerge.EmptyInRowComplete | gaming-hub-final/games/mana-merge/game.js:31-33 | every empty cell of row i before column m is collected |
| ManaMerge.EmptyRowsComplete | gaming-hub-final/games/mana-merge/game.js:30-34 | every empty cell of the first n rows is collected |
| ManaMerge.EmptyCells | gaming-hub-final/games/mana-merge/game.js:29-34 | the `empty` list of the scan. Definition only; EmptyCellsExact proves it holds exactly the empty cells |
| ManaMerge.EmptyCellsExact | gaming-hub-final/games/mana-merge/game.js:29-34 | the `empty` list holds exactly the empty cells of the board |
| ManaMerge.Pick | gaming-hub-final/games/mana-merge/game.js:36 | `Math.floor(u * n)` for u in [0, 1) is a valid index into the list of n empty cells |
| ManaMerge.PlaceTile | gaming-hub-final/games/mana-merge/game.js:28-38 | placing a tile keeps the board 4 x 4 |
| ManaMerge.PlaceTileSpec | gaming-hub-final/games/mana-merge/game.js:28-38 | a full board is left as it is (the early return); otherwise exactly one cell changes, it was empty, and it now holds the value; the list is empty exactly when the board is full |
| ManaMerge.PlaceTileTotal | gaming-hub-final/games/mana-merge/game.js:35-37 | placing a tile adds its value to the board total, unless the board is full |
| ManaMerge.PlaceFreshTile | gaming-hub-final/games/mana-merge/game.js:37 | a board whose tiles are all 2 or 4 stays so when a 2 or a 4 is placed |
| ManaMerge.PlaceTileKeepsTiles | gaming-hub-final/games/mana-merge/game.js:37 | placing a 2 or a 4 keeps every cell empty or a tile value |
| ManaMerge.StartingBoard | gaming-hub-final/games/mana-merge/game.js:20-24 | the cleared board with two tiles placed is a 4 x 4 board |
| ManaMerge.StartingBoardSpec | gaming-hub-final/games/mana-merge/game.js:20-24 | the starting board has exactly two tiles (14 empty cells), each 2 or 4 |
| ManaMerge.SlideLine | gaming-hub-final/games/mana-merge/game.js:79-113 | a line slid toward the chosen side has 4 cells |
| ManaMerge.LineGain | gaming-hub-final/games/mana-merge/game.js:82-107 | the score one line of a move earns (the `slide` calls at lines 82, 89, 97 and 107). Definition only; SlideLineProperties proves it non-negative on tiles, and Gain sums it |
| ManaMerge.Line | gaming-hub-final/games/mana-merge/game.js:81-106 | line k of a move (lines 81, 88, 95-96 and 105-106) is row k, or column k for up and down, and has 4 cells |
| ManaMerge.Changed | gaming-hub-final/games/mana-merge/game.js:83-109 | the `moved` test for one line (lines 83, 90, 99 and 109). Definition only; TransformedChanged proves the board changes iff some line does |
| ManaMerge.SlideLineProperties | gaming-hub-final/games/mana-merge/game.js:79-113 | sliding a line in any direction keeps its sum; tile values stay tile values with a non-negative score |
| ManaMerge.Transformed | gaming-hub-final/games/mana-merge/game.js:79-113 | the board after the slide loops is still 4 x 4 |
| ManaMerge.TransformedRow | gaming-hub-final/games/mana-merge/game.js:79-92 | for left and right, row k of the new board is row k slid |
| ManaMerge.TransformedColumn | gaming-hub-final/games/mana-merge/game.js:93-112 | for up and down, column k of the new board is column k slid |
| ManaMerge.Gain | gaming-hub-final/games/mana-merge/game.js:79-113 | the score of a move: the merge score of each of the four lines. Definition only; TransformedKeepsTiles proves it non-negative and UnknownDirection proves it zero for other directions |
| ManaMerge.TransformedConserves | gaming-hub-final/games/mana-merge/game.js:77-113 | a move keeps the total of the tiles (merging only adds tiles together) |
| ManaMerge.TransformedChanged | gaming-hub-final/games/mana-merge/game.js:83 | the board changes if and only if some line changes, so the per-line `moved` tests decide whether the board moved |
| ManaMerge.GridDiffers | gaming-hub-final/games/mana-merge/game.js:99 | boards differ if and only if some cell differs, which is what the per-cell comparison tests |
| ManaMerge.MovedLeavesRoom | gaming-hub-final/games/mana-merge/game.js:114 | a move that changed the board leaves an empty cell, so the new tile always has somewhere to go |
| ManaMerge.TransformedKeepsTiles | gaming-hub-final/games/mana-merge/game.js:77-113 | a board of tile values stays one after a move, and the move's score is non-negative |
| ManaMerge.UnknownDirection | gaming-hub-final/games/mana-merge/game.js:79-116 | a direction that matches no branch leaves the board and score as they were and adds no tile |
| ManaMerge.Transpose | gaming-hub-final/games/mana-merge/game.js:93-102 | cell (i, j) of the transposed board is cell (j, i) |
| ManaMerge.FlipRows | gaming-hub-final/games/mana-merge/game.js:103-112 | row i of the flipped board is row 3 - i |
| ManaMerge.UpIsTransposedLeft | gaming-hub-final/games/mana-merge/game.js:93-102 | sliding up is sliding left on the transposed board, transposed back |
| ManaMerge.DownIsFlippedUp | gaming-hub-final/games/mana-merge/game.js:103-112 | sliding down is sliding up on the upside-down board, flipped back |
| ManaMerge.AfterMove | gaming-hub-final/games/mana-merge/game.js:77-116 | the board after a whole move, tile included, is 4 x 4 |
| ManaMerge.AfterMoveTotal | gaming-hub-final/games/mana-merge/game.js:77-116 | a move adds to the board total exactly the value of the new tile when the board changed, and nothing otherwise |
| ManaMerge.Game.constructor | gaming-hub-final/games/mana-merge/game.js:13-16 | at page load the grid is empty, the score is 0 and the game has not started |
| ManaMerge.Game.AddRandomTile | gaming-hub-final/games/mana-merge/game.js:28-38 | the grid becomes the specified placement; score and started flag are untouched |
| ManaMerge.Game.ResetGrid | gaming-hub-final/games/mana-merge/game.js:20-26 | the grid becomes the cleared board with two tiles and the score becomes 0 |
| ManaMerge.Game.Start | gaming-hub-final/games/mana-merge/game.js:134 | the start button sets started and resets the grid |
| ManaMerge.Game.SlideRows | gaming-hub-final/games/mana-merge/game.js:79-92 | the row loop leaves the slid board and adds the move's score; `moved` is true exactly when the board changed |
| ManaMerge.Game.SlideColumn | gaming-hub-final/games/mana-merge/game.js:94-101 | one column pass writes the slid column into the grid and adds its score; `moved` records whether any column so far changed |
| ManaMerge.Game.SlideColumns | gaming-hub-final/games/mana-merge/game.js:93-112 | the column loop leaves the slid board and adds the move's score; `moved` is true exactly when the board changed |
| ManaMerge.Game.Move | gaming-hub-final/games/mana-merge/game.js:77-116 | the grid becomes the slid board plus a new tile if it changed, and the score grows by the merged values |
| ManaMerge.Game.KeyDown | gaming-hub-final/games/mana-merge/game.js:119-125 | before the start, or for a non-arrow key, nothing changes; otherwise the arrow's move is made |
| ManaMerge.KeyDirection | gaming-hub-final/games/mana-merge/game.js:121-124 | ArrowLeft, ArrowRight, ArrowUp and ArrowDown map to left, right, up and down, and a key maps to none exactly when it is none of the four |
| PixelArena.NewEnemy | gaming-hub-final/games/pixel-arena/game.js:56 | a spawned enemy is 20 x 20 at x in [0, 480) and y in [0, 20), falling at a speed in [2, 4) |
| PixelArena.Shot | gaming-hub-final/games/pixel-arena/game.js:61 | a bullet is 10 x 10, centred on the player, just above it, moving up at 6 |
| PixelArena.Advanced | gaming-hub-final/games/pixel-arena/game.js:77 | the bullet pass never adds bullets, and every bullet it keeps is on screen (y >= 0) |
| PixelArena.AdvancedMembers | gaming-hub-final/games/pixel-arena/game.js:77 | every kept bullet is an old one moved up by its speed, and every moved bullet still on screen is kept |
| PixelArena.Flown | gaming-hub-final/games/pixel-arena/game.js:77 | every bullet moved up by its speed, before the top-edge test; as many bullets as before |
| PixelArena.AdvancedCounts | gaming-hub-final/games/pixel-arena/game.js:77 | the bullet pass keeps each moved bullet at or below the top edge exactly as often as it occurs, and no bullet above it |
| PixelArena.Missing | gaming-hub-final/games/pixel-arena/game.js:93-104 | the bullet test against one enemy never adds bullets |
| PixelArena.MissingMembers | gaming-hub-final/games/pixel-arena/game.js:93-104 | a bullet survives the test against an enemy if and only if it does not overlap that enemy |
| PixelArena.MissingCounts | gaming-hub-final/games/pixel-arena/game.js:93-104 | the test against one enemy keeps each missing bullet exactly as often as it occurs, and drops every hitting bullet |
| PixelArena.MissingDrops | gaming-hub-final/games/pixel-arena/game.js:93-104 | when some bullet overlaps the enemy, the test leaves strictly fewer bullets |
| PixelArena.Meet | gaming-hub-final/games/pixel-arena/game.js:83-104 | one enemy's turn of the loop. Definition only; MeetKept and, through MeetAll, MeetAllCounts and MeetAllBullets prove its properties |
| PixelArena.Fallen | gaming-hub-final/games/pixel-arena/game.js:83 | `e.y += e.dy`. Definition only; MeetKept and MeetAllKept say which fallen enemies stay |
| PixelArena.MeetKept | gaming-hub-final/games/pixel-arena/game.js:86-101 | an enemy is kept, fallen, exactly when it touches neither the player nor any live bullet. A contact or a bullet hit removes it, and the kept list is then unchanged |
| PixelArena.MeetAll | gaming-hub-final/games/pixel-arena/game.js:82-105 | the enemy loop over all enemies in order. Definition only; the MeetAll lemmas prove its properties |
| PixelArena.Contacts | gaming-hub-final/games/pixel-arena/game.js:86 | the number of enemies that touch the player once fallen. Definition only; MeetAllCounts ties hp and the game-over test to it |
| PixelArena.MissingAll | gaming-hub-final/games/pixel-arena/game.js:93-104 | when no bullet overlaps the enemy, all are kept |
| PixelArena.MeetAllCounts | gaming-hub-final/games/pixel-arena/game.js:82-105 | score rises by exactly 10 per destroyed bullet, hp falls by exactly 10 per enemy touching the player, and the game stops exactly when some contact leaves hp at 0 or below |
| PixelArena.MeetAllBullets | gaming-hub-final/games/pixel-arena/game.js:93-104 | every bullet left after the enemy loop was live before it and misses every fallen enemy |
| PixelArena.MeetAllKept | gaming-hub-final/games/pixel-arena/game.js:82-105 | every enemy kept is a fallen enemy clear of the player, and there are at most as many as before |
| PixelArena.MeetAllKeepsUntouched | gaming-hub-final/games/pixel-arena/game.js:82-105 | a fallen enemy touching neither the player nor any live bullet is kept |
| PixelArena.Game.constructor | gaming-hub-final/games/pixel-arena/game.js:16-21 | the page-load state: player at (250, 250) at rest with 100 hp, no bullets or enemies, score 0, not started, timer 0 |
| PixelArena.Game.ResetGame | gaming-hub-final/games/pixel-arena/game.js:24-28 | the player is back at (250, 250) with 100 hp; bullets, enemies, score and timer are cleared; the intent and started flag are kept |
| PixelArena.Game.StartGame | gaming-hub-final/games/pixel-arena/game.js:115 | sets started, then resets |
| PixelArena.Game.GameOver | gaming-hub-final/games/pixel-arena/game.js:116 | clears the started flag and nothing else |
| PixelArena.Game.Shoot | gaming-hub-final/games/pixel-arena/game.js:60-62 | appends one bullet fired from the player's position |
| PixelArena.Game.SpawnEnemy | gaming-hub-final/games/pixel-arena/game.js:55-57 | appends one enemy made from the draws |
| PixelArena.Game.AdvanceBullets | gaming-hub-final/games/pixel-arena/game.js:77 | the bullet loop leaves exactly the advanced bullets |
| PixelArena.Game.Strike | gaming-hub-final/games/pixel-arena/game.js:93-104 | the inner bullet loop keeps exactly the bullets missing the enemy and adds 10 per bullet removed |
| PixelArena.Game.Engage | gaming-hub-final/games/pixel-arena/game.js:83-104 | one enemy's pass makes exactly the specified change to hp, started flag, score, bullets and kept enemies |
| PixelArena.Game.EngageAll | gaming-hub-final/games/pixel-arena/game.js:82-105 | the enemy loop makes exactly the specified change over all enemies, in order |
| PixelArena.Game.Update | gaming-hub-final/games/pixel-arena/game.js:65-105 | before the start nothing changes; otherwise the player is clamped after moving, the timer counts one, an enemy spawns on multiples of 60, and the enemy loop runs on the advanced bullets; score stays a non-negative multiple of 10 |
| PixelArena.Game.KeyDown | gaming-hub-final/games/pixel-arena/game.js:119-126 | ignored before the start; the arrows set the intent and Space fires |
| PixelArena.Game.KeyUp | gaming-hub-final/games/pixel-arena/game.js:127-130 | a horizontal arrow zeroes dx, a vertical arrow zeroes dy, and nothing else changes |
| RogueProtocol.NewEnemy | gaming-hub-final/games/rogue-protocol/game.js:40 | a spawned enemy is 20 x 20, just above the top, at x in [0, 480), falling at a speed in [2, 4) |
| RogueProtocol.NewItem | gaming-hub-final/games/rogue-protocol/game.js:41 | a spawned item is 15 x 15, just above the top, at x in [0, 480), falling at a speed in [1.5, 2.5) |
| RogueProtocol.BothSpawn | gaming-hub-final/games/rogue-protocol/game.js:56-58 | an enemy and an item spawn on the same tick if and only if the timer is a multiple of 400 |
| RogueProtocol.Fall | gaming-hub-final/games/rogue-protocol/game.js:62-73 | `y += dy` for enemies (line 62) and items (line 73). Definition only; Stays and SurvivorsCounts use it |
| RogueProtocol.OffScreen | gaming-hub-final/games/rogue-protocol/game.js:63-74 | the `y > 500` test at lines 63 and 74. Definition only; SurvivorsSound and SurvivorsCounts prove no survivor is off the field |
| RogueProtocol.Touches | gaming-hub-final/games/rogue-protocol/game.js:64-75 | the contact test after falling, at lines 64 and 75. Definition only; ContactsRemoved proves a touching entity never survives |
| RogueProtocol.Stays | gaming-hub-final/games/rogue-protocol/game.js:63-66 | an entity stays when, after falling, it is above y = 500 and clear of the player. Definition only; SurvivorsSound and SurvivorsComplete prove the loop keeps exactly these |
| RogueProtocol.Survivors | gaming-hub-final/games/rogue-protocol/game.js:61-79 | the loop never adds entities |
| RogueProtocol.Contacts | gaming-hub-final/games/rogue-protocol/game.js:64 | there are at most as many contacts as entities |
| RogueProtocol.ContactsRemoved | gaming-hub-final/games/rogue-protocol/game.js:61-69 | an entity touching the player never survives: survivors plus contacts number at most the entities |
| RogueProtocol.SurvivorsSound | gaming-hub-final/games/rogue-protocol/game.js:61-79 | every survivor is a fallen entity that is still on the field and clear of the player |
| RogueProtocol.SurvivorsComplete | gaming-hub-final/games/rogue-protocol/game.js:61-79 | every entity that stays on the field and clear of the player survives, fallen |
| RogueProtocol.Falls | gaming-hub-final/games/rogue-protocol/game.js:62-73 | every entity after one tick of falling (lines 62 and 73); as many entities as before |
| RogueProtocol.SurvivorsCounts | gaming-hub-final/games/rogue-protocol/game.js:61-79 | the loop keeps each fallen entity on the field and clear of the player exactly as often as it occurs, and no other |
| RogueProtocol.Game.constructor | gaming-hub-final/games/rogue-protocol/game.js:16-21 | the page-load state: player at (240, 400) at rest with 100 hp, nothing on the field, score 0, not started, timer 0 |
| RogueProtocol.Game.StartGame | gaming-hub-final/games/rogue-protocol/game.js:90 | sets started and full hp, and clears score, enemies, items and timer; the position and intent are kept |
| RogueProtocol.Game.ResetGame | gaming-hub-final/games/rogue-protocol/game.js:91 | the same as starting |
| RogueProtocol.Game.GameOver | gaming-hub-final/games/rogue-protocol/game.js:92 | clears the started flag and nothing else |
| RogueProtocol.Game.EnemyStep | gaming-hub-final/games/rogue-protocol/game.js:62-68 | one enemy stays exactly when it is still on the field and clear of the player; a contact costs 10 hp and ends the game at 0 or below |
| RogueProtocol.Game.SweepEnemies | gaming-hub-final/games/rogue-protocol/game.js:61-69 | the enemy loop leaves exactly the survivors, takes 10 hp per contact, and stops the game exactly when a contact brings hp to 0 or below |
| RogueProtocol.Game.SweepItems | gaming-hub-final/games/rogue-protocol/game.js:72-79 | the item loop leaves exactly the surviving items and adds 5 per item picked up |
| RogueProtocol.Game.Spawn | gaming-hub-final/games/rogue-protocol/game.js:56-58 | the timer counts one; an enemy is appended on multiples of 80 and an item on multiples of 200 |
| RogueProtocol.Game.Update | gaming-hub-final/games/rogue-protocol/game.js:44-84 | before the start nothing changes; otherwise the player is clamped after moving, spawning happens, and both loops run against the player's new box; score stays a non-negative multiple of 5 |
| RogueProtocol.Game.KeyDown | gaming-hub-final/games/rogue-protocol/game.js:95-101 | ignored before the start; the arrows set the intent |
| RogueProtocol.Game.KeyUp | gaming-hub-final/games/rogue-protocol/game.js:102-105 | a horizontal arrow zeroes dx, a vertical arrow zeroes dy |
| SkyForge.PlatformAt | gaming-hub-final/games/sky-forge/game.js:44-47 | a platform is 12 high and between 80 and 140 wide; on a canvas at least 140 wide it lies inside; on one narrower than the platform it sits at x = 0 |
| SkyForge.Spacing | gaming-hub-final/games/sky-forge/game.js:42 | `Math.floor(height / 11)` is the largest spacing whose eleven gaps fit into the canvas |
| SkyForge.Depth | gaming-hub-final/games/sky-forge/game.js:46 | `height - i * spacing`. Definition only; Generated and GeneratedSpan prove where the platforms lie |
| SkyForge.Generated | gaming-hub-final/games/sky-forge/game.js:40-49 | platform i sits at depth height - i * floor(height / 11), has a width in [80, 140), and lies inside a wide enough canvas |
| SkyForge.GeneratedSpan | gaming-hub-final/games/sky-forge/game.js:42-46 | the first platform sits on the bottom edge and the twelfth within 11 pixels below the top edge |
| SkyForge.Lands | gaming-hub-final/games/sky-forge/game.js:88-94 | the landing test: horizontal overlap, falling, and the feet in the band of depth max(12, \|vy\|) below the platform top. Definition only; LandAllSpec uses it |
| SkyForge.Land | gaming-hub-final/games/sky-forge/game.js:95-97 | a landing snaps the feet to the top, stops the fall and sets the on-ground flag. Definition only; LandAllSpec proves its effect |
| SkyForge.LandAll | gaming-hub-final/games/sky-forge/game.js:87-99 | the landing loop in platform order. Definition only; LandAllSpec proves its properties |
| SkyForge.LandAllSpec | gaming-hub-final/games/sky-forge/game.js:86-99 | after the landing loop the player either stands still on top of some platform or keeps its depth and speed; any platform the player was falling onto makes it land |
| SkyForge.Scrolled | gaming-hub-final/games/sky-forge/game.js:102-104 | scrolling keeps the number of platforms and moves each one up by 0.7, leaving its x, width and height unchanged |
| SkyForge.OffTop | gaming-hub-final/games/sky-forge/game.js:109 | the `y + h < -10` test. Definition only; KeptMembers, KeptCounts and RecycledSpec prove no kept platform satisfies it |
| SkyForge.Kept | gaming-hub-final/games/sky-forge/game.js:108-111 | the platforms the recycle loop keeps, in order. Definition only; KeptMembers and RecycleKeepsCount prove its properties |
| SkyForge.Removed | gaming-hub-final/games/sky-forge/game.js:108-111 | at most every platform is removed |
| SkyForge.NewPlatform | gaming-hub-final/games/sky-forge/game.js:113-116 | a replacement platform is 80 to 140 wide and sits between the bottom edge and 80 below it |
| SkyForge.Fresh | gaming-hub-final/games/sky-forge/game.js:113-116 | one replacement per draw, all at or below the bottom edge |
| SkyForge.RecycleKeepsCount | gaming-hub-final/games/sky-forge/game.js:108-119 | kept plus removed platforms number exactly the platforms |
| SkyForge.KeptMembers | gaming-hub-final/games/sky-forge/game.js:108-119 | a platform is kept if and only if it has not left the top |
| SkyForge.KeptCounts | gaming-hub-final/games/sky-forge/game.js:108-119 | the recycle loop keeps each platform still on screen exactly as often as it occurs, and none off the top |
| SkyForge.NothingRemoved | gaming-hub-final/games/sky-forge/game.js:108-119 | nothing is removed if and only if no platform has left the top, and then the list is unchanged |
| SkyForge.RecycledSpec | gaming-hub-final/games/sky-forge/game.js:108-119 | recycling keeps the number of platforms, adds 5 per platform replaced, and leaves only old on-screen platforms and new ones below the bottom |
| SkyForge.Moved | gaming-hub-final/games/sky-forge/game.js:76-83 | the movement stage. Definition only; MovedInside proves its properties |
| SkyForge.Landed | gaming-hub-final/games/sky-forge/game.js:85-99 | the landing stage, from the on-ground flag cleared. Definition only; LandAllSpec proves its properties |
| SkyForge.ScrolledUp | gaming-hub-final/games/sky-forge/game.js:102-104 | the scroll stage of a tick. Definition only; Scrolled states what it does to the platforms |
| SkyForge.Recycled | gaming-hub-final/games/sky-forge/game.js:106-119 | the recycle stage with its draws. Definition only; RecycledSpec proves its properties |
| SkyForge.Penalized | gaming-hub-final/games/sky-forge/game.js:121-135 | the fall-penalty stage. Definition only; PenaltySpec proves its properties |
| SkyForge.Step | gaming-hub-final/games/sky-forge/game.js:73-143 | one tick: nothing before the start, otherwise the stages in order. Definition only; StepValid and StoppedStepIsIdle prove its properties |
| SkyForge.SessionValid | gaming-hub-final/games/sky-forge/game.js:73-143 | score a non-negative multiple of 5, hp one of 100, 70, 40, 10, 0, and a running game with hp left and 12 platforms. Definition only; StepValid and Game.Update prove it is kept |
| SkyForge.MovedInside | gaming-hub-final/games/sky-forge/game.js:76-83 | after moving, the player lies horizontally inside a canvas at least as wide as it, and gravity has been applied to speed and then depth |
| SkyForge.PenaltySpec | gaming-hub-final/games/sky-forge/game.js:121-135 | hp never goes negative; above the threshold nothing changes; below it either hp drops by 30 and the player respawns at rest 40 from the top and, on a canvas at least 42 wide (the player width 22 plus 20), at least 10 in from each side, or hp is set to 0 and the game ends |
| SkyForge.StepValid | gaming-hub-final/games/sky-forge/game.js:73-143 | every tick keeps score a non-negative multiple of 5, hp one of 100, 70, 40, 10, 0, and a running game with hp left and 12 platforms |
| SkyForge.StoppedStepIsIdle | gaming-hub-final/games/sky-forge/game.js:74 | a tick before the start or after game over changes nothing |
| SkyForge.Game.constructor | gaming-hub-final/games/sky-forge/game.js:16-32 | the page-load state: player at (240, 400) on the ground at rest with 100 hp, no platforms, score 0, not started |
| SkyForge.Game.GeneratePlatforms | gaming-hub-final/games/sky-forge/game.js:40-49 | the platform list becomes exactly the generated twelve, and nothing else changes |
| SkyForge.Game.StartGame | gaming-hub-final/games/sky-forge/game.js:160-172 | full hp, player centred 100 above the bottom at rest with no intent, score 0, fresh platforms, started |
| SkyForge.Game.ResetGame | gaming-hub-final/games/sky-forge/game.js:174-176 | the same as starting |
| SkyForge.Game.GameOver | gaming-hub-final/games/sky-forge/game.js:178-179 | clears the started flag and nothing else |
| SkyForge.Game.DoJump | gaming-hub-final/games/sky-forge/game.js:152-157 | from the ground the player gets upward speed 10 and leaves the ground; in the air nothing changes |
| SkyForge.Game.MoveAndFall | gaming-hub-final/games/sky-forge/game.js:76-83 | the movement stage, exactly |
| SkyForge.Game.LandOnPlatforms | gaming-hub-final/games/sky-forge/game.js:85-99 | the landing loop, exactly, starting with the on-ground flag cleared |
| SkyForge.Game.ScrollPlatforms | gaming-hub-final/games/sky-forge/game.js:101-104 | the scroll loop, exactly |
| SkyForge.Game.Replace | gaming-hub-final/games/sky-forge/game.js:111-117 | removes platform i, appends a replacement from the draw, and adds 5 to the score |
| SkyForge.Game.RecyclePlatforms | gaming-hub-final/games/sky-forge/game.js:106-119 | the backward recycle loop leaves exactly the kept platforms followed by one replacement per removed platform, and adds 5 for each |
| SkyForge.Game.FallPenalty | gaming-hub-final/games/sky-forge/game.js:121-135 | the fall penalty, exactly |
| SkyForge.Game.Update | gaming-hub-final/games/sky-forge/game.js:73-143 | one tick is the five stages in order (nothing before the start), and it keeps the session invariant |
| SkyForge.Game.KeyDown | gaming-hub-final/games/sky-forge/game.js:190-195 | ignored before the start; left and right set the intent and ArrowUp jumps; other keys do nothing |
| SkyForge.Game.KeyUp | gaming-hub-final/games/sky-forge/game.js:196-198 | a horizontal arrow zeroes the intent; other keys do nothing |

## Left out

- Drawing, UI text, menus and frame scheduling are not modelled. This covers every `draw*` function, `updateUI`, `menu.innerHTML`, `ctx` and `requestAnimationFrame`; the re-entry into `update` is modelled as the caller calling `Update` again.
- Touch-button handlers are not modelled. They set the same intent as the arrow keys, but without the started check.
- ManaMerge.Game.AddRandomTile: the new tile's value is a parameter, 2 or 4. The 90/10 split of `Math.random()<0.9?2:4` is a probability and is not expressed.
- ManaMerge.Game.Move: requires a 4 x 4 grid. Before the first start the grid is `[]`, and a touch button would call `move` on it, which the source does not handle either (it throws).
- ManaMerge.Game.SlideRows: `row.join() !== newRow.join()` is modelled as sequence inequality. The two agree for lines of 4 integers.
- PixelArena.Game.EngageAll: `splice` inside `forEach` is mark-and-compact here. Each entity's fate is decided and the survivors are kept in order. The source's splices cause four effects that are not modelled:
  - the enemy after a removed one is skipped this tick;
  - when an enemy touches the player and is also hit by a bullet, `splice(ei,1)` runs twice and removes a second enemy;
  - a later bullet that still overlaps the removed enemy `e` runs `splice(ei,1)` again, which also removes another enemy;
  - after a hitting bullet is spliced, the bullet right after it is not tested against that enemy.
- PixelArena.Game.AdvanceBullets: the same mark-and-compact model; the source skips the bullet after each removed one.
- RogueProtocol.Game.SweepEnemies: the same mark-and-compact model. An enemy that is both off the bottom and touching the player is spliced twice in the source, which removes a second enemy; here it is removed once.
- RogueProtocol.Game.SweepItems: the same mark-and-compact model as the enemy loop.
- PixelArena.Game.Update, RogueProtocol.Game.Update: hp can go below 0 here as in the source, which only stops the game at `hp <= 0`, so no lower bound on hp is claimed.
- PixelArena.Game.StartGame, RogueProtocol.Game.StartGame, SkyForge.Game.StartGame: the source's immediate `update()` call is a separate `Update` call by the caller.
- SkyForge.Game.Update: `score += 0.02` per tick is left out, so score counts only the 5-point recycling rewards. Floating-point rounding of 0.55 and 0.7 is not modelled either; the arithmetic is exact.
- SkyForge.Game.Update: requires at least as many spawn draws as there are platforms, since each removed platform takes three `Math.random()` draws.
- SkyForge.Game.LandOnPlatforms: the landing loop starts from the on-ground flag cleared, as in the source. LandAllSpec states its properties only for that case.
- PixelArena.MeetAllKept: stated for a loop that starts with no enemies kept, which is how the enemy loop is entered.
- `updateUI`'s `Math.max(0, Math.floor(hp))` and `Math.floor(score)` are display only and are not modelled.
- The canvas size is a constructor parameter. It is not read from the page.
