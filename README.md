# Lights Out game engine in Dafny

This project models the game engine of a browser Lights Out puzzle (`script.js`).
The board is an n-by-n grid of lights. Pressing a light flips it and its in-bounds
orthogonal neighbours, and the player wins when every light is off. A new game
builds an all-off board and scrambles it with random presses. Each player click is
counted and pushed on an undo stack. Undo pops the last click and presses that cell
again. A hint names the first cell, in row-major order, whose press would switch off
the most lit lights. The elapsed time is shown as `m:ss`.

Files:

- `options.dfy`: the `Option` datatype, used for a hint cell that may be absent and for a parsed time.
- `lights.dfy` (module `Lights`): the board as a value (`seq<seq<bool>>`).
  - It holds the single-light flip (`Flip`) and the press operator. `Press` is stated cell by cell through Manhattan adjacency.
  - It holds the win test (`AllOff`), written as the nested `every` of the source.
  - It holds sequences of presses (`PressAll`) and the algebra of presses: self-inverse, commutative, solvable by replay.
- `hint.dfy` (module `Hint`): `checkToggleEffect`, `calculateImpact` and the two scans of `useHint`.
  - The scans are methods with loops: the best-impact scan and the first-unlit fallback.
- `clock.dfy` (module `Clock`): `formatTime` and a reader for its output. Together they give the round trip `minutes*60 + ss == seconds`.
- `game.dfy` (module `Game`): the class `LightsOut` holds the game's globals as fields.
  - The fields are `boardSize`, `difficulty`, `gameBoard`, `moveCount`, `hintsLeft` and `undoStack`.
  - The methods update these fields in place.
  - `Valid()` keeps four facts. The board is square. `moveCount == |undoStack|`. `0 <= hintsLeft <= 3`. The board equals the board left by the scramble with the recorded clicks replayed on it.
  - The scramble's board is kept in the ghost field `scrambled`. The last fact means that undoing every click gives back the scrambled board, cell for cell.

The random draws of `Math.random` are a parameter. `rand: seq<Move>` is a sequence of in-range coordinates, and the k-th scramble press uses `rand[k]`.

`'hard'` and any unrecognised level both give 50 presses (script.js:108). There is no retry, and
`Game.ScrambleMayBeSolved` shows that a scramble can leave the board already won.

## Model

| member | source | states |
|---|---|---|
| `Lights.Blank` | script.js:59-81 | the board createBoard builds is boardSize-by-boardSize with every light off |
| `Lights.Flip` | script.js:96-97 | toggling one light keeps the board's n-by-n shape |
| `Lights.FlipAt` | script.js:97 | toggling (r, c) changes that cell and no other |
| `Lights.Press` | script.js:85-90 | a press keeps the board's n-by-n shape; the function is the reference definition, under which a cell flips exactly when it is adjacent to the press |
| `Lights.PressChangesExactly` | script.js:85-90 | a press changes exactly (r,c), (r-1,c), (r+1,c), (r,c-1) and (r,c+1) among the cells inside the board, and no other cell |
| `Lights.ToggledIsAdjacent` | script.js:87-90 | the cells picked by toggleLights' four bound guards are exactly the in-bounds cells at Manhattan distance at most 1 |
| `Lights.FlipIf` | script.js:87-90 | one guarded toggleLight step keeps the board's n-by-n shape |
| `Lights.FlipIfAt` | script.js:87-90 | a guarded step flips cell (r, c) when its guard holds and changes no cell otherwise |
| `Lights.FlipsMakePress` | script.js:85-90 | the five guarded toggleLight steps of toggleLights produce exactly the pressed board |
| `Lights.PressSelfInverse` | script.js:85-97 | pressing the same cell twice gives back the board |
| `Lights.PressCommutes` | script.js:85-97 | presses at any two cells commute |
| `Lights.RowOff` | script.js:134 | `row.every(light => !light)` holds iff every light of the row is off |
| `Lights.AllOff` | script.js:134 | the win test holds iff every cell of the board is off |
| `Lights.BlankIsWinButOneLightIsNot` | script.js:134 | the all-off board is a win and a board with a single light on is not |
| `Lights.PressAll` | script.js:109-113 | pressing a sequence of cells keeps the board's n-by-n shape |
| `Lights.AllOffDuringSomePrefix` | script.js:109-113 | the win test fires during a sequence of presses exactly when the board is all off after some non-empty prefix of them |
| `Lights.PressAllThenPress` | script.js:109-113 | one press may be made before or after a whole sequence of presses with the same result |
| `Lights.PressAllTwice` | script.js:109-113 | replaying the same presses on their result gives back the starting board |
| `Lights.PressEvenTimes` | script.js:109-113 | pressing one cell an even number of times leaves the board unchanged |
| `Lights.ScrambleIsSolvable` | script.js:107-114 | a board scrambled from all-off is cleared by pressing the same cells again |
| `Hint.LitCell` | script.js:218-224 | checkToggleEffect's value is the size of a set that holds (r, c) exactly when (r, c) is on the board and lit, and nothing else |
| `Hint.Impact` | script.js:204-215 | the impact of a cell is at most 5 |
| `Hint.ImpactCountsLitNeighbourhood` | script.js:204-224 | the impact equals the number of lit in-bounds cells among (r, c) and its four neighbours, whether or not (r, c) is on the board |
| `Hint.LitNeighbourhoodIsSwitchedOff` | script.js:218-221 | for an on-board press, the lights that the impact counts are exactly the lights the press switches off |
| `Hint.FirstBestIsUnique` | script.js:164-171 | at most one cell has maximal impact with every earlier cell strictly lower, so the hint is determined |
| `Hint.BestHint` | script.js:160-172 | the scan finds a cell iff the board is non-empty, so the fallback runs only for size 0; the cell found has maximal impact, and every earlier cell in row-major order has strictly smaller impact |
| `Hint.FirstUnlit` | script.js:175-185 | the fallback finds a cell iff some light is off; the cell found is the first unlit cell in row-major order |
| `Clock.Decimal` | script.js:129 | a number renders as at least one decimal digit with no leading zero (a rendering that starts with `0` is the rendering of 0); it is one digit exactly when below 10, and at most two below 100 |
| `Clock.DecimalRoundTrip` | script.js:129 | reading a rendered number gives the number back |
| `Clock.FormatTime` | script.js:126-130 | the display is digits, a colon, then exactly two digits |
| `Clock.ParseTime` | script.js:126-130 | a time string that reads as a value ends in `:` plus two characters |
| `Clock.FormatTimeRoundTrip` | script.js:126-130 | the minutes field reads as `seconds / 60` and the two-digit field as `seconds % 60`; the display reads back as `seconds` |
| `Game.MovesFor` | script.js:108 | 'easy' gives 10 presses, 'medium' 25, any other level 50 |
| `Game.ScrambleMayBeSolved` | script.js:107-114 | ten presses of one corner give an 'easy' scramble that is already all off |
| `Game.LightsOut.constructor` | script.js:2-9 | the page's start followed by startGame gives a valid game with the startGame state |
| `Game.LightsOut.StartGame` | script.js:30-46 | counters, hints and undo stack are reset. The board is the all-off board pressed at the first MovesFor(level) draws. Pressing those draws again clears it. The returned flag says whether the board was all off after some scramble press, which the source announces as a win. The game is valid |
| `Game.LightsOut.CreateBoard` | script.js:55-81 | the nested loops build the boardSize-by-boardSize all-off board |
| `Game.LightsOut.ToggleLight` | script.js:96-97 | the board becomes the old board with the one light flipped |
| `Game.LightsOut.ToggleLights` | script.js:85-93 | the board becomes the pressed board, and the returned win verdict is the all-off test of the new board |
| `Game.LightsOut.RandomizeBoard` | script.js:107-114 | the board becomes the old board pressed at exactly the first MovesFor(level) draws, in order; the returned flag says whether the win test, run after each of those presses, fired on any of them |
| `Game.LightsOut.Click` | script.js:69-75 | a click presses the cell, adds one to moveCount and pushes the move; nothing else changes, and the game stays valid |
| `Game.LightsOut.UndoMove` | script.js:227-235 | with an empty stack nothing changes. Otherwise the last move is popped and pressed again, and moveCount drops by one. Validity then means the board is as it was before that move. The returned verdict is the win test after the undo press, and false when nothing was undone |
| `Game.LightsOut.UseHint` | script.js:158-201 | with hints left and a non-empty board, the hint is the first cell of maximal impact and one hint is spent. Otherwise no hint is given and nothing changes. The allowance never goes negative |

## Left out

- The page's jQuery plumbing is not modelled. This covers building the light elements, the `on` and `hint` classes, the hint highlight's `setTimeout`, the text fields and the screen switches (`showGameContainer`, `returnToMenu`).
- `playSound` and the audio elements are not modelled: they are output only.
- The timer is not modelled: `startTimer`, `setInterval`, `clearInterval` and `timeElapsed`. `formatTime` is kept as a pure function of the seconds.
- Clock.FormatTime: takes `seconds: nat`. The only caller passes `timeElapsed`, which starts at 0 and only grows. For negative arguments JavaScript's `Math.floor` and `%` would give a different, unmodelled text.
- checkWinCondition's effects beyond its verdict (stopping the timer, the win message, the win sound) are not modelled. `ToggleLights` and `UndoMove` return the verdict instead, and `RandomizeBoard` and `StartGame` return whether it fired during the scramble. The constructor drops that flag, since a Dafny constructor has no result.
- `alert('No hints left!')` is not modelled. Without hints, `UseHint` changes nothing and returns no cell.
- `resetGame` and `startNewGame` are not modelled separately. Apart from the timer and sounds, each is a call of `startGame`, which is `StartGame`.
- `Math.random` is replaced by the `rand` parameter.
- Game.LightsOut.StartGame: the size and level come in as parameters. Reading them from the menu with `parseInt` is not modelled, so a non-numeric size cannot occur.
- Game.LightsOut.StartGame: a board size of 0 with a scramble cannot be called. The `rand` draws must lie on the board, and there are at least 10 of them. In the source, this case crashes when it reads `gameBoard[0]`.
- `bestImpact` starts at `-Infinity` in the source and at `-1` in `Hint.BestHint`. Every impact is at least 0, so both starts are beaten by the first cell.
- JavaScript numbers are doubles. `moveCount` and `hintsLeft` are modelled as unbounded integers, since the counts never come near 2^53.
