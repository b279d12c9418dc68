/**
 * The Lights Out board as a value: an n-by-n grid of booleans (`true` = light on),
 * the press operator that flips a cell and its orthogonal neighbours, the
 * all-off (win) test and sequences of presses.
 */
module Lights {

  /** `gameBoard[row][col]` is `true` when that light is on. */
  type Board = seq<seq<bool>>

  /** A pressed cell, as recorded on the undo stack: `{ row, col }`. */
  datatype Move = Move(row: int, col: int)

  /** Every row is as long as there are rows: the grid is n-by-n. */
  predicate Square(g: Board)
  {
    forall i :: 0 <= i < |g| ==> |g[i]| == |g|
  }

  predicate InRange(n: int, r: int, c: int)
  {
    0 <= r < n && 0 <= c < n
  }

  predicate AllInRange(n: int, ps: seq<Move>)
  {
    forall k :: 0 <= k < |ps| ==> InRange(n, ps[k].row, ps[k].col)
  }

  function Abs(x: int): nat
  {
    if x < 0 then -x else x
  }

  /** (i, j) is the cell (r, c) itself or one of its four orthogonal neighbours. */
  predicate Adjacent(r: int, c: int, i: int, j: int)
  {
    Abs(i - r) + Abs(j - c) <= 1
  }

  /** The n-by-n board with every light off, as built by createBoard. */
  function Blank(n: nat): (g: Board)
    ensures |g| == n && Square(g)
    ensures forall i, j :: InRange(n, i, j) ==> !g[i][j]
  {
    seq(n, _ => seq(n, _ => false))
  }

  /** toggleLight: the board with the one light at (r, c) flipped. */
  function Flip(g: Board, r: int, c: int): (h: Board)
    requires Square(g) && InRange(|g|, r, c)
    ensures |h| == |g| && Square(h)
  {
    g[r := g[r][c := !g[r][c]]]
  }

  /** Flipping (r, c) changes that cell and no other. */
  lemma FlipAt(g: Board, r: int, c: int, i: int, j: int)
    requires Square(g) && InRange(|g|, r, c) && InRange(|g|, i, j)
    ensures Flip(g, r, c)[i][j] == (g[i][j] != (i == r && j == c))
  {
  }

  /**
   * The press operator, stated cell by cell: pressing (r, c) flips every
   * in-bounds cell adjacent to (r, c) and leaves every other cell alone.
   */
  function Press(g: Board, r: int, c: int): (h: Board)
    requires Square(g) && InRange(|g|, r, c)
    ensures |h| == |g| && Square(h)
  {
    seq(|g|, i requires 0 <= i < |g| =>
      seq(|g|, j requires 0 <= j < |g| => g[i][j] != Adjacent(r, c, i, j)))
  }

  /** Two boards of the same shape that agree on every cell are equal. */
  lemma SameBoard(a: Board, b: Board)
    requires Square(a) && Square(b) && |a| == |b|
    requires forall i, j :: InRange(|a|, i, j) ==> a[i][j] == b[i][j]
    ensures a == b
  {
    forall i | 0 <= i < |a|
      ensures a[i] == b[i]
    {
      assert forall j :: 0 <= j < |a| ==> a[i][j] == b[i][j];
    }
  }

  /**
   * Pressing (r, c) changes exactly the cell (r, c) and those of (r-1, c),
   * (r+1, c), (r, c-1), (r, c+1) that lie inside the board.
   */
  lemma PressChangesExactly(g: Board, r: int, c: int, i: int, j: int)
    requires Square(g) && InRange(|g|, r, c) && InRange(|g|, i, j)
    ensures Press(g, r, c)[i][j] != g[i][j] <==>
      (i == r && j == c) || (i == r - 1 && j == c) || (i == r + 1 && j == c) ||
      (i == r && j == c - 1) || (i == r && j == c + 1)
  {
  }

  /** (i, j) is one of the cells toggleLights flips for a press at (r, c) on an n-by-n board. */
  predicate Toggled(n: int, r: int, c: int, i: int, j: int)
  {
    || (i == r && j == c)
    || (r > 0 && i == r - 1 && j == c)
    || (r < n - 1 && i == r + 1 && j == c)
    || (c > 0 && i == r && j == c - 1)
    || (c < n - 1 && i == r && j == c + 1)
  }

  /** One guarded step of toggleLights: flip (r, c) when the guard holds. */
  function FlipIf(guard: bool, g: Board, r: int, c: int): (h: Board)
    requires Square(g) && (guard ==> InRange(|g|, r, c))
    ensures |h| == |g| && Square(h)
  {
    if guard then Flip(g, r, c) else g
  }

  lemma FlipIfAt(guard: bool, g: Board, r: int, c: int, i: int, j: int)
    requires Square(g) && (guard ==> InRange(|g|, r, c)) && InRange(|g|, i, j)
    ensures FlipIf(guard, g, r, c)[i][j] == (g[i][j] != (guard && i == r && j == c))
  {
    if guard {
      FlipAt(g, r, c, i, j);
    }
  }

  /**
   * toggleLights' five steps, flipping (r, c) and then each neighbour whose
   * guard holds, end on the pressed board.
   */
  lemma FlipsMakePress(g: Board, r: int, c: int, g1: Board, g2: Board, g3: Board, g4: Board, g5: Board)
    requires Square(g) && InRange(|g|, r, c)
    requires g1 == Flip(g, r, c)
    requires g2 == FlipIf(r > 0, g1, r - 1, c)
    requires g3 == FlipIf(r < |g| - 1, g2, r + 1, c)
    requires g4 == FlipIf(c > 0, g3, r, c - 1)
    requires g5 == FlipIf(c < |g| - 1, g4, r, c + 1)
    ensures g5 == Press(g, r, c)
  {
    forall i, j | InRange(|g|, i, j)
      ensures g5[i][j] == Press(g, r, c)[i][j]
    {
      FlipAt(g, r, c, i, j);
      FlipIfAt(r > 0, g1, r - 1, c, i, j);
      FlipIfAt(r < |g| - 1, g2, r + 1, c, i, j);
      FlipIfAt(c > 0, g3, r, c - 1, i, j);
      FlipIfAt(c < |g| - 1, g4, r, c + 1, i, j);
      ToggledIsAdjacent(|g|, r, c, i, j);
    }
    SameBoard(g5, Press(g, r, c));
  }

  /** On the board, the cells toggleLights flips are exactly those adjacent to the press. */
  lemma ToggledIsAdjacent(n: int, r: int, c: int, i: int, j: int)
    requires InRange(n, r, c) && InRange(n, i, j)
    ensures Toggled(n, r, c, i, j) <==> Adjacent(r, c, i, j)
  {
  }

  /** Pressing the same cell twice gives back the board. */
  lemma PressSelfInverse(g: Board, r: int, c: int)
    requires Square(g) && InRange(|g|, r, c)
    ensures Press(Press(g, r, c), r, c) == g
  {
    SameBoard(Press(Press(g, r, c), r, c), g);
  }

  /** Presses at any two cells commute. */
  lemma PressCommutes(g: Board, r1: int, c1: int, r2: int, c2: int)
    requires Square(g) && InRange(|g|, r1, c1) && InRange(|g|, r2, c2)
    ensures Press(Press(g, r1, c1), r2, c2) == Press(Press(g, r2, c2), r1, c1)
  {
    SameBoard(Press(Press(g, r1, c1), r2, c2), Press(Press(g, r2, c2), r1, c1));
  }

  /** Every light of the row is off, examined from the first light on. */
  function RowOff(row: seq<bool>): (b: bool)
    ensures b <==> forall j :: 0 <= j < |row| ==> !row[j]
  {
    |row| == 0 || (!row[0] && RowOff(row[1..]))
  }

  /** checkWinCondition's test: every row, in order, has every light off. */
  function AllOff(g: Board): (b: bool)
    ensures b <==> forall i, j :: 0 <= i < |g| && 0 <= j < |g[i]| ==> !g[i][j]
  {
    |g| == 0 || (RowOff(g[0]) && AllOff(g[1..]))
  }

  /** The freshly created board is a win; a board with one light on is not. */
  lemma BlankIsWinButOneLightIsNot(n: nat, r: int, c: int)
    requires InRange(n, r, c)
    ensures AllOff(Blank(n))
    ensures !AllOff(Flip(Blank(n), r, c))
  {
    FlipAt(Blank(n), r, c, r, c);
  }

  /** The board after pressing the cells of `ps` in order. */
  function PressAll(g: Board, ps: seq<Move>): (h: Board)
    requires Square(g) && AllInRange(|g|, ps)
    ensures |h| == |g| && Square(h)
    decreases |ps|
  {
    if ps == [] then g
    else
      var last := ps[|ps| - 1];
      Press(PressAll(g, ps[..|ps| - 1]), last.row, last.col)
  }

  /** The board is all off after some non-empty prefix of the presses `ps`. */
  function AllOffDuring(g: Board, ps: seq<Move>): bool
    requires Square(g) && AllInRange(|g|, ps)
    decreases |ps|
  {
    ps != [] && (AllOffDuring(g, ps[..|ps| - 1]) || AllOff(PressAll(g, ps)))
  }

  /** AllOffDuring holds exactly when one of the boards passed through, after the first press on, is all off. */
  lemma {:induction false} AllOffDuringSomePrefix(g: Board, ps: seq<Move>)
    requires Square(g) && AllInRange(|g|, ps)
    ensures AllOffDuring(g, ps) <==> exists k :: 1 <= k <= |ps| && AllOff(PressAll(g, ps[..k]))
    decreases |ps|
  {
    if ps != [] {
      var qs := ps[..|ps| - 1];
      AllOffDuringSomePrefix(g, qs);
      assert forall k :: 1 <= k <= |qs| ==> qs[..k] == ps[..k];
      assert ps[..|ps|] == ps;
      if exists k :: 1 <= k <= |ps| && AllOff(PressAll(g, ps[..k])) {
        var k :| 1 <= k <= |ps| && AllOff(PressAll(g, ps[..k]));
        if k < |ps| {
          assert AllOff(PressAll(g, qs[..k]));
        }
      }
    }
  }

  /** A press may be made before or after a whole sequence of presses. */
  lemma {:induction false} PressAllThenPress(g: Board, ps: seq<Move>, r: int, c: int)
    requires Square(g) && AllInRange(|g|, ps) && InRange(|g|, r, c)
    ensures Press(PressAll(g, ps), r, c) == PressAll(Press(g, r, c), ps)
    decreases |ps|
  {
    if ps != [] {
      var qs, p := ps[..|ps| - 1], ps[|ps| - 1];
      PressCommutes(PressAll(g, qs), p.row, p.col, r, c);
      PressAllThenPress(g, qs, r, c);
    }
  }

  /** Replaying a sequence of presses on its own result gives back the starting board. */
  lemma {:induction false} PressAllTwice(g: Board, ps: seq<Move>)
    requires Square(g) && AllInRange(|g|, ps)
    ensures PressAll(PressAll(g, ps), ps) == g
    decreases |ps|
  {
    if ps != [] {
      var qs, p := ps[..|ps| - 1], ps[|ps| - 1];
      var y := PressAll(g, qs);
      var x := Press(y, p.row, p.col);
      assert PressAll(g, ps) == x;
      PressAllThenPress(y, qs, p.row, p.col);
      PressAllTwice(g, qs);
      PressSelfInverse(g, p.row, p.col);
    }
  }

  /** Pressing one cell an even number of times leaves the board as it was. */
  lemma {:induction false} PressEvenTimes(g: Board, m: Move, k: nat)
    requires Square(g) && InRange(|g|, m.row, m.col)
    ensures PressAll(g, seq(2 * k, _ => m)) == g
  {
    if k > 0 {
      var ps := seq(2 * k, _ => m);
      assert ps[..2 * k - 1][..2 * k - 2] == seq(2 * (k - 1), _ => m);
      PressEvenTimes(g, m, k - 1);
      PressSelfInverse(g, m.row, m.col);
    }
  }

  /**
   * A board scrambled from all-off by the presses `ps` is cleared by pressing
   * the same cells again: every generated board is solvable.
   */
  lemma ScrambleIsSolvable(n: nat, ps: seq<Move>)
    requires AllInRange(n, ps)
    ensures AllOff(PressAll(PressAll(Blank(n), ps), ps))
  {
    PressAllTwice(Blank(n), ps);
  }
}
