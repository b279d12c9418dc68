/**
 * The heuristic hint: the impact of pressing a cell is the number of lit cells
 * among the cell and its in-bounds neighbours; the hint is the first cell in
 * row-major order whose impact is largest.
 */
module Hint {
  import opened Options
  import opened Lights

  /** checkToggleEffect: 1 when (r, c) lies inside the board and its light is on, else 0. */
  function CheckToggleEffect(g: Board, r: int, c: int): (e: nat)
    requires Square(g)
  {
    if 0 <= r && r < |g| && 0 <= c && c < |g| then
      (if g[r][c] then 1 else 0)
    else 0
  }

  /** calculateImpact: the effect at the cell and above, below, left and right of it. */
  function Impact(g: Board, r: int, c: int): (k: nat)
    requires Square(g)
    ensures k <= 5
  {
    CheckToggleEffect(g, r, c) + CheckToggleEffect(g, r - 1, c) + CheckToggleEffect(g, r + 1, c)
    + CheckToggleEffect(g, r, c - 1) + CheckToggleEffect(g, r, c + 1)
  }

  /** The lit cells that a press at (r, c) would flip. */
  function LitNeighbourhood(g: Board, r: int, c: int): set<(int, int)>
    requires Square(g)
  {
    set i, j | 0 <= i < |g| && 0 <= j < |g| && Adjacent(r, c, i, j) && g[i][j] :: (i, j)
  }

  /** The cell (r, c) when it is a lit cell of the board; its size is checkToggleEffect's value. */
  function LitCell(g: Board, r: int, c: int): (s: set<(int, int)>)
    requires Square(g)
    ensures (r, c) in s <==> InRange(|g|, r, c) && g[r][c]
    ensures |s| == CheckToggleEffect(g, r, c)
    ensures forall p :: p in s ==> p == (r, c)
  {
    if InRange(|g|, r, c) && g[r][c] then {(r, c)} else {}
  }

  /** The lit neighbourhood is the union of the five candidate cells that are lit. */
  lemma LitNeighbourhoodIsUnion(g: Board, r: int, c: int)
    requires Square(g)
    ensures LitNeighbourhood(g, r, c) ==
      LitCell(g, r, c) + LitCell(g, r - 1, c) + LitCell(g, r + 1, c) + LitCell(g, r, c - 1) + LitCell(g, r, c + 1)
  {
    var u := LitCell(g, r, c) + LitCell(g, r - 1, c) + LitCell(g, r + 1, c) + LitCell(g, r, c - 1) + LitCell(g, r, c + 1);
    forall p | p in LitNeighbourhood(g, r, c)
      ensures p in u
    {
      var (i, j) := p;
      assert Adjacent(r, c, i, j);
      assert (i == r && j == c) || (i == r - 1 && j == c) || (i == r + 1 && j == c)
        || (i == r && j == c - 1) || (i == r && j == c + 1);
    }
  }

  /** Adding a cell not yet counted adds its effect to the count. */
  lemma AddLitCell(s: set<(int, int)>, g: Board, r: int, c: int, k: nat)
    requires Square(g) && (r, c) !in s && |s| == k
    ensures |s + LitCell(g, r, c)| == k + CheckToggleEffect(g, r, c)
  {
  }

  /** The five candidate cells are distinct, so the lit ones number the impact. */
  lemma FiveCellsCount(g: Board, r: int, c: int)
    requires Square(g)
    ensures |LitCell(g, r, c) + LitCell(g, r - 1, c) + LitCell(g, r + 1, c) + LitCell(g, r, c - 1) + LitCell(g, r, c + 1)|
      == Impact(g, r, c)
  {
    var e0, e1, e2, e3, e4 := CheckToggleEffect(g, r, c), CheckToggleEffect(g, r - 1, c),
      CheckToggleEffect(g, r + 1, c), CheckToggleEffect(g, r, c - 1), CheckToggleEffect(g, r, c + 1);
    var s1 := LitCell(g, r, c);
    AddLitCell(s1, g, r - 1, c, e0);
    var s2 := s1 + LitCell(g, r - 1, c);
    assert forall p :: p in s2 ==> p.1 == c && r - 1 <= p.0 <= r;
    AddLitCell(s2, g, r + 1, c, e0 + e1);
    var s3 := s2 + LitCell(g, r + 1, c);
    assert forall p :: p in s3 ==> p.1 == c;
    AddLitCell(s3, g, r, c - 1, e0 + e1 + e2);
    var s4 := s3 + LitCell(g, r, c - 1);
    assert forall p :: p in s4 ==> p.1 <= c;
    AddLitCell(s4, g, r, c + 1, e0 + e1 + e2 + e3);
  }

  /**
   * The impact of (r, c) is the number of lit cells that pressing (r, c)
   * would switch off, whether or not (r, c) itself is on the board.
   */
  lemma ImpactCountsLitNeighbourhood(g: Board, r: int, c: int)
    requires Square(g)
    ensures Impact(g, r, c) == |LitNeighbourhood(g, r, c)|
  {
    LitNeighbourhoodIsUnion(g, r, c);
    FiveCellsCount(g, r, c);
  }

  /** For an on-board press, the lit neighbourhood is exactly the set of lights the press turns off. */
  lemma LitNeighbourhoodIsSwitchedOff(g: Board, r: int, c: int, i: int, j: int)
    requires Square(g) && InRange(|g|, r, c) && InRange(|g|, i, j)
    ensures (i, j) in LitNeighbourhood(g, r, c) <==> g[i][j] && !Press(g, r, c)[i][j]
  {
  }

  /** (r1, c1) comes before (r2, c2) in row-major order. */
  predicate Before(r1: int, c1: int, r2: int, c2: int)
  {
    r1 < r2 || (r1 == r2 && c1 < c2)
  }

  /**
   * `m` is a cell of maximal impact and every cell before it in row-major
   * order has strictly smaller impact: the cell useHint's scan settles on.
   */
  ghost predicate IsFirstBest(g: Board, m: Move)
    requires Square(g)
  {
    && InRange(|g|, m.row, m.col)
    && (forall i, j :: InRange(|g|, i, j) ==> Impact(g, i, j) <= Impact(g, m.row, m.col))
    && (forall i, j :: InRange(|g|, i, j) && Before(i, j, m.row, m.col) ==>
          Impact(g, i, j) < Impact(g, m.row, m.col))
  }

  /** At most one cell is the first of maximal impact. */
  lemma FirstBestIsUnique(g: Board, m1: Move, m2: Move)
    requires Square(g) && IsFirstBest(g, m1) && IsFirstBest(g, m2)
    ensures m1 == m2
  {
  }

  /** The cells scanned so far: all rows above i, and row i left of column j. */
  predicate Scanned(i: int, j: int, r: int, c: int)
  {
    r < i || (r == i && c < j)
  }

  /**
   * useHint's nested scan: visit every cell in row-major
   * order, keeping the first cell whose impact beats the best so far.
   * `bestImpact` starts at -1, which every impact beats as -Infinity does.
   */
  method BestHint(g: Board) returns (best: Option<Move>)
    requires Square(g)
    ensures best.None? <==> |g| == 0
    ensures best.Some? ==> IsFirstBest(g, best.value)
  {
    var n := |g|;
    best := None;
    var bestImpact: int := -1;
    for i := 0 to n
      invariant best.None? <==> i == 0
      invariant best.None? ==> bestImpact == -1
      invariant best.Some? ==> InRange(n, best.value.row, best.value.col) && best.value.row < i
      invariant best.Some? ==> bestImpact == Impact(g, best.value.row, best.value.col)
      invariant forall r, c :: InRange(n, r, c) && r < i ==> Impact(g, r, c) <= bestImpact
      invariant best.Some? ==> forall r, c :: InRange(n, r, c) && Before(r, c, best.value.row, best.value.col) ==>
        Impact(g, r, c) < bestImpact
    {
      for j := 0 to n
        invariant best.None? <==> i == 0 && j == 0
        invariant best.None? ==> bestImpact == -1
        invariant best.Some? ==> InRange(n, best.value.row, best.value.col) && Scanned(i, j, best.value.row, best.value.col)
        invariant best.Some? ==> bestImpact == Impact(g, best.value.row, best.value.col)
        invariant forall r, c :: InRange(n, r, c) && Scanned(i, j, r, c) ==> Impact(g, r, c) <= bestImpact
        invariant best.Some? ==> forall r, c :: InRange(n, r, c) && Before(r, c, best.value.row, best.value.col) ==>
          Impact(g, r, c) < bestImpact
      {
        var impact := Impact(g, i, j);
        if impact > bestImpact {
          best := Some(Move(i, j));
          bestImpact := impact;
        }
      }
    }
  }

  /**
   * useHint's fallback scan: the first unlit cell in
   * row-major order, if there is one.
   */
  method FirstUnlit(g: Board) returns (cell: Option<Move>)
    requires Square(g)
    ensures cell.None? <==> forall i, j :: InRange(|g|, i, j) ==> g[i][j]
    ensures cell.Some? ==>
      && InRange(|g|, cell.value.row, cell.value.col)
      && !g[cell.value.row][cell.value.col]
      && forall i, j :: InRange(|g|, i, j) && Before(i, j, cell.value.row, cell.value.col) ==> g[i][j]
  {
    var n := |g|;
    cell := None;
    for i := 0 to n
      invariant cell.None?
      invariant forall r, c :: InRange(n, r, c) && r < i ==> g[r][c]
    {
      for j := 0 to n
        invariant cell.None?
        invariant forall r, c :: InRange(n, r, c) && Scanned(i, j, r, c) ==> g[r][c]
      {
        if !g[i][j] {
          cell := Some(Move(i, j));
          break;
        }
      }
      if cell.Some? {
        break;
      }
    }
  }
}
