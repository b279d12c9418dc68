/**
 * The game session: the board, the undo stack, the move counter and the
 * hint allowance, updated in place by the player's clicks, undo and hint.
 */
module Game {
  import opened Options
  import opened Lights
  import Hint

  /** Hints granted at the start of each game. */
  const MaxHints := 3

  /** The number of random presses that scramble a new board: 10, 25, or 50 for any other level. */
  function MovesFor(level: string): (moves: nat)
    ensures level == "easy" ==> moves == 10
    ensures level == "medium" ==> moves == 25
    ensures level != "easy" && level != "medium" ==> moves == 50
  {
    if level == "easy" then 10 else if level == "medium" then 25 else 50
  }

  /**
   * Nothing stops a scramble from cancelling out: ten presses of one corner
   * leave an "easy" board all off, already won before the first move.
   */
  lemma ScrambleMayBeSolved(n: nat)
    requires n >= 1
    ensures var rand := seq(MovesFor("easy"), _ => Move(0, 0));
      AllInRange(n, rand) && AllOff(PressAll(Blank(n), rand))
  {
    PressEvenTimes(Blank(n), Move(0, 0), 5);
  }

  class LightsOut {
    var boardSize: nat
    var difficulty: string
    var gameBoard: Board
    var moveCount: int
    var hintsLeft: int
    var undoStack: seq<Move>
    /** The board as the scramble left it, before any player move. */
    ghost var scrambled: Board

    /**
     * The board is boardSize-by-boardSize, every recorded move lies on it,
     * the move counter counts the recorded moves, the hint allowance stays in
     * 0..3, and the board is the scramble with the recorded moves replayed.
     */
    ghost predicate Valid()
      reads this
    {
      && |gameBoard| == boardSize && Square(gameBoard)
      && |scrambled| == boardSize && Square(scrambled)
      && AllInRange(boardSize, undoStack)
      && moveCount == |undoStack|
      && 0 <= hintsLeft <= MaxHints
      && gameBoard == PressAll(scrambled, undoStack)
    }

    /**
     * The page's start: the initial globals, then startGame with the size and
     * level read from the menu and `rand` standing for the draws of Math.random.
     */
    constructor (size: nat, level: string, rand: seq<Move>)
      requires MovesFor(level) <= |rand| && AllInRange(size, rand)
      ensures Valid()
      ensures boardSize == size && difficulty == level
      ensures moveCount == 0 && hintsLeft == MaxHints && undoStack == []
      ensures gameBoard == PressAll(Blank(size), rand[..MovesFor(level)])
    {
      boardSize, difficulty, gameBoard := 5, "easy", [];
      moveCount, hintsLeft, undoStack := 0, MaxHints, [];
      new;
      var _ := StartGame(size, level, rand);
    }

    /**
     * startGame: reset the counters, the hints and the undo stack, build an
     * all-off board and scramble it with the first MovesFor(level) draws;
     * `wonDuring` tells whether a scramble press announced a win.
     */
    method StartGame(size: nat, level: string, rand: seq<Move>) returns (wonDuring: bool)
      requires MovesFor(level) <= |rand| && AllInRange(size, rand)
      modifies this
      ensures Valid()
      ensures boardSize == size && difficulty == level
      ensures moveCount == 0 && hintsLeft == MaxHints && undoStack == []
      ensures gameBoard == PressAll(Blank(size), rand[..MovesFor(level)])
      ensures PressAll(gameBoard, rand[..MovesFor(level)]) == Blank(size)
      ensures wonDuring <==> exists k :: 1 <= k <= MovesFor(level) && AllOff(PressAll(Blank(size), rand[..k]))
    {
      boardSize := size;
      difficulty := level;
      moveCount := 0;
      hintsLeft := MaxHints;
      undoStack := [];
      CreateBoard();
      wonDuring := RandomizeBoard(difficulty, rand);
      scrambled := gameBoard;
      ghost var presses := rand[..MovesFor(level)];
      assert gameBoard == PressAll(Blank(size), presses);
      assert PressAll(scrambled, undoStack) == scrambled;
      PressAllTwice(Blank(size), presses);
    }

    /** createBoard: a boardSize-by-boardSize grid with every light off. */
    method CreateBoard()
      modifies this`gameBoard
      ensures gameBoard == Blank(boardSize)
    {
      var n := boardSize;
      var rows: Board := [];
      for i := 0 to n
        invariant rows == Blank(n)[..i]
      {
        var row: seq<bool> := [];
        for j := 0 to n
          invariant row == Blank(n)[i][..j]
        {
          row := row + [false];
        }
        assert row == Blank(n)[i];
        rows := rows + [row];
      }
      gameBoard := rows;
    }

    /** toggleLight: flip the one light at (row, col). */
    method ToggleLight(row: int, col: int)
      requires Square(gameBoard) && InRange(|gameBoard|, row, col)
      modifies this`gameBoard
      ensures gameBoard == Flip(old(gameBoard), row, col)
    {
      gameBoard := gameBoard[row := gameBoard[row][col := !gameBoard[row][col]]];
    }

    /**
     * toggleLights: flip (row, col) and each orthogonal neighbour inside the
     * board, then run the win check, whose verdict is returned.
     */
    method ToggleLights(row: int, col: int) returns (won: bool)
      requires |gameBoard| == boardSize && Square(gameBoard) && InRange(boardSize, row, col)
      modifies this`gameBoard
      ensures gameBoard == Press(old(gameBoard), row, col)
      ensures won <==> AllOff(gameBoard)
    {
      ghost var g0 := gameBoard;
      ToggleLight(row, col);
      ghost var g1 := gameBoard;
      if row > 0 { ToggleLight(row - 1, col); }
      ghost var g2 := gameBoard;
      if row < boardSize - 1 { ToggleLight(row + 1, col); }
      ghost var g3 := gameBoard;
      if col > 0 { ToggleLight(row, col - 1); }
      ghost var g4 := gameBoard;
      if col < boardSize - 1 { ToggleLight(row, col + 1); }
      FlipsMakePress(g0, row, col, g1, g2, g3, g4, gameBoard);
      won := AllOff(gameBoard);
    }

    /**
     * randomizeBoard: press MovesFor(level) cells, the k-th at the draw `rand[k]`.
     * Each press runs the win check, so `wonDuring` tells whether the board was
     * all off after some press of the scramble, when the win is announced.
     */
    method RandomizeBoard(level: string, rand: seq<Move>) returns (wonDuring: bool)
      requires |gameBoard| == boardSize && Square(gameBoard)
      requires MovesFor(level) <= |rand| && AllInRange(boardSize, rand)
      modifies this`gameBoard
      ensures gameBoard == PressAll(old(gameBoard), rand[..MovesFor(level)])
      ensures wonDuring <==> exists k :: 1 <= k <= MovesFor(level) && AllOff(PressAll(old(gameBoard), rand[..k]))
    {
      ghost var start := gameBoard;
      var moves := MovesFor(level);
      wonDuring := false;
      for i := 0 to moves
        invariant |gameBoard| == boardSize && Square(gameBoard)
        invariant gameBoard == PressAll(start, rand[..i])
        invariant wonDuring == AllOffDuring(start, rand[..i])
      {
        assert rand[..i + 1][..i] == rand[..i];
        var won := ToggleLights(rand[i].row, rand[i].col);
        wonDuring := wonDuring || won;
      }
      AllOffDuringSomePrefix(start, rand[..moves]);
      assert forall k :: 1 <= k <= moves ==> rand[..moves][..k] == rand[..k];
    }

    /**
     * The click handler on the light at (i, j): press it, count the move and
     * push it on the undo stack.
     */
    method Click(i: int, j: int) returns (won: bool)
      requires Valid() && InRange(boardSize, i, j)
      modifies this
      ensures Valid()
      ensures gameBoard == Press(old(gameBoard), i, j)
      ensures won <==> AllOff(gameBoard)
      ensures moveCount == old(moveCount) + 1 && undoStack == old(undoStack) + [Move(i, j)]
      ensures boardSize == old(boardSize) && difficulty == old(difficulty) && hintsLeft == old(hintsLeft)
      ensures scrambled == old(scrambled)
    {
      won := ToggleLights(i, j);
      moveCount := moveCount + 1;
      undoStack := undoStack + [Move(i, j)];
      assert undoStack[..|undoStack| - 1] == old(undoStack);
    }

    /**
     * undoMove: with moves on the stack, pop the last one and press it again,
     * which puts the board back as it was before that move, and return the
     * win check's verdict; otherwise change nothing and announce nothing.
     */
    method UndoMove() returns (won: bool)
      requires Valid()
      modifies this
      ensures Valid()
      ensures won <==> old(undoStack) != [] && AllOff(gameBoard)
      ensures old(undoStack) == [] ==> undoStack == [] && gameBoard == old(gameBoard) && moveCount == old(moveCount)
      ensures old(undoStack) != [] ==>
        && undoStack == old(undoStack)[..|old(undoStack)| - 1]
        && gameBoard == old(Press(gameBoard, undoStack[|undoStack| - 1].row, undoStack[|undoStack| - 1].col))
        && moveCount == old(moveCount) - 1
      ensures boardSize == old(boardSize) && difficulty == old(difficulty) && hintsLeft == old(hintsLeft)
      ensures scrambled == old(scrambled)
    {
      won := false;
      if |undoStack| > 0 {
        var lastMove := undoStack[|undoStack| - 1];
        undoStack := undoStack[..|undoStack| - 1];
        won := ToggleLights(lastMove.row, lastMove.col);
        PressSelfInverse(PressAll(scrambled, undoStack), lastMove.row, lastMove.col);
        moveCount := moveCount - 1;
      }
    }

    /**
     * useHint: with hints left, pick the first cell of maximal impact (the
     * fallback scan only runs on an empty board) and spend one hint;
     * without hints, change nothing.
     */
    method UseHint() returns (hint: Option<Move>)
      requires Valid()
      modifies this`hintsLeft
      ensures Valid()
      ensures hint.Some? <==> old(hintsLeft) > 0 && boardSize > 0
      ensures hint.Some? ==> Hint.IsFirstBest(gameBoard, hint.value)
      ensures hintsLeft == if hint.Some? then old(hintsLeft) - 1 else old(hintsLeft)
    {
      hint := None;
      if hintsLeft > 0 {
        var bestHint := Hint.BestHint(gameBoard);
        if bestHint.None? {
          bestHint := Hint.FirstUnlit(gameBoard);
        }
        if bestHint.Some? {
          hintsLeft := hintsLeft - 1;
        }
        hint := bestHint;
      }
    }
  }
}
