/** The board state kept by the user interface (class Board): the matrix, the
    snapshot history used for undo, the highlighted cells and the selected piece.
    Rendering (SDL windows, textures, rerender) is not part of this model. */
module BoardState {
  import opened Moves
  import opened Cells
  import opened Evaluation

  /** An 8x8 grid of flags: the highlighted cells. */
  type Grid = g: seq<seq<bool>> | |g| == 8 && forall i | 0 <= i < 8 :: |g[i]| == 8
    witness seq(8, i => seq(8, j => false))

  const NoHighlight: Grid := seq(8, i => seq(8, j => false))

  /** How a board operation ended: normally, or with the error the source throws. */
  datatype Outcome = Done | TargetOccupied | StartEmpty | NotAMan

  /** The code make_start_mtx writes at (i, j): black men on the dark squares of rows
      0-2, white men on the dark squares of rows 5-7, empty elsewhere. */
  function StartCode(i: int, j: int): Code {
    if i < 3 && (i + j) % 2 == 1 then 2
    else if i > 4 && (i + j) % 2 == 1 then 1
    else 0
  }

  const StartMatrix: Matrix := seq(8, i => seq(8, j => StartCode(i, j)))

  /** The number of snapshots rollback removes from a history of n snapshots whose last
      beat-series count is last: max(1, last), but never the first snapshot. */
  function Popped(last: int, n: nat): (r: nat)
    requires n >= 1
    ensures r <= n - 1 && (r <= last || r <= 1)
    ensures r == n - 1 || r == last || (r == 1 && last < 1)
  {
    var bs := if last < 1 then 1 else last;
    if bs < n - 1 then bs else n - 1
  }

  /** The board after removing the captured piece of turn, the first thing
      move_piece(turn) does, before any check. */
  function Uncaptured(m: Matrix, turn: Move): Matrix
    requires MoveInBounds(turn)
  {
    if turn.xb != -1 then Set(m, turn.xb, turn.yb, 0) else m
  }

  class Board {
    var mtx: Matrix
    var historyMtx: seq<Matrix>
    var historyBeatSeries: seq<int>
    var highlighted: Grid
    var activeX: int
    var activeY: int
    var gameResults: int

    /** The two history lists are pushed and popped together. */
    ghost predicate Valid()
      reads this
    {
      |historyMtx| == |historyBeatSeries|
    }

    /** A board with the default field values: an empty matrix, no history, nothing
        highlighted or selected, no result. */
    constructor()
      ensures mtx == EmptyMatrix && historyMtx == [] && historyBeatSeries == []
      ensures highlighted == NoHighlight && activeX == -1 && activeY == -1
      ensures gameResults == -1
      ensures Valid()
    {
      mtx := EmptyMatrix;
      historyMtx := [];
      historyBeatSeries := [];
      highlighted := NoHighlight;
      activeX, activeY := -1, -1;
      gameResults := -1;
    }

    /** Pushes the current matrix and the beat-series count of the move that produced it. */
    method AddHistory(beatSeries: int)
      modifies this
      ensures historyMtx == old(historyMtx) + [mtx]
      ensures historyBeatSeries == old(historyBeatSeries) + [beatSeries]
      ensures mtx == old(mtx) && highlighted == old(highlighted)
      ensures activeX == old(activeX) && activeY == old(activeY)
      ensures gameResults == old(gameResults)
      ensures old(Valid()) ==> Valid()
    {
      historyMtx := historyMtx + [mtx];
      historyBeatSeries := historyBeatSeries + [beatSeries];
    }

    /** Moves the piece at (i, j) to (i2, j2), promoting a man that reaches its far
        row, and records the new matrix. Fails, changing nothing, when the target is
        occupied (checked first) or the start is empty. */
    method MovePieceAt(i: int, j: int, i2: int, j2: int, beatSeries: int) returns (r: Outcome)
      requires InBounds(i, j) && InBounds(i2, j2)
      modifies this
      ensures old(mtx)[i2][j2] != 0 ==> r == TargetOccupied
      ensures old(mtx)[i2][j2] == 0 && old(mtx)[i][j] == 0 ==> r == StartEmpty
      ensures r != Done ==> mtx == old(mtx) && historyMtx == old(historyMtx)
                            && historyBeatSeries == old(historyBeatSeries)
      ensures old(mtx)[i2][j2] == 0 && old(mtx)[i][j] != 0 ==>
                && r == Done
                && mtx == MakeTurn(old(mtx), Step(i, j, i2, j2))
                && historyMtx == old(historyMtx) + [mtx]
                && historyBeatSeries == old(historyBeatSeries) + [beatSeries]
      ensures highlighted == old(highlighted)
      ensures activeX == old(activeX) && activeY == old(activeY)
      ensures gameResults == old(gameResults)
      ensures old(Valid()) ==> Valid()
    {
      if mtx[i2][j2] != 0 {
        return TargetOccupied;
      }
      if mtx[i][j] == 0 {
        return StartEmpty;
      }
      if (mtx[i][j] == 1 && i2 == 0) || (mtx[i][j] == 2 && i2 == 7) {
        mtx := Set(mtx, i, j, mtx[i][j] + 2);
      }
      mtx := Set(mtx, i2, j2, mtx[i][j]);
      DropPiece(i, j);
      AddHistory(beatSeries);
      r := Done;
    }

    /** Plays turn: removes the captured piece, then moves as MovePieceAt does. When the
        move then fails the captured cell stays cleared, as in the source. */
    method MovePiece(turn: Move, beatSeries: int) returns (r: Outcome)
      requires MoveInBounds(turn)
      modifies this
      ensures var m1 := Uncaptured(old(mtx), turn);
              && (m1[turn.x2][turn.y2] != 0 ==> r == TargetOccupied)
              && (m1[turn.x2][turn.y2] == 0 && m1[turn.x][turn.y] == 0 ==> r == StartEmpty)
              && (r != Done ==> mtx == m1)
      ensures r != Done ==> historyMtx == old(historyMtx)
                            && historyBeatSeries == old(historyBeatSeries)
      ensures var m1 := Uncaptured(old(mtx), turn);
              m1[turn.x2][turn.y2] == 0 && m1[turn.x][turn.y] != 0 ==>
                && r == Done
                && mtx == MakeTurn(old(mtx), turn)
                && historyMtx == old(historyMtx) + [mtx]
                && historyBeatSeries == old(historyBeatSeries) + [beatSeries]
      ensures highlighted == old(highlighted)
      ensures activeX == old(activeX) && activeY == old(activeY)
      ensures gameResults == old(gameResults)
      ensures old(Valid()) ==> Valid()
    {
      if turn.xb != -1 {
        mtx := Set(mtx, turn.xb, turn.yb, 0);
      }
      r := MovePieceAt(turn.x, turn.y, turn.x2, turn.y2, beatSeries);
    }

    /** Empties cell (i, j). */
    method DropPiece(i: int, j: int)
      requires InBounds(i, j)
      modifies this
      ensures mtx == Set(old(mtx), i, j, 0)
      ensures historyMtx == old(historyMtx) && historyBeatSeries == old(historyBeatSeries)
      ensures highlighted == old(highlighted)
      ensures activeX == old(activeX) && activeY == old(activeY)
      ensures gameResults == old(gameResults)
    {
      mtx := Set(mtx, i, j, 0);
    }

    /** Crowns the man at (i, j); fails, changing nothing, on an empty cell or a king. */
    method TurnIntoQueen(i: int, j: int) returns (r: Outcome)
      requires InBounds(i, j)
      modifies this
      ensures IsMan(old(mtx)[i][j]) <==> r == Done
      ensures r == Done ==> mtx == Set(old(mtx), i, j, old(mtx)[i][j] + 2)
                            && IsKing(mtx[i][j]) && mtx[i][j] % 2 == old(mtx)[i][j] % 2
      ensures r != Done ==> r == NotAMan && mtx == old(mtx)
      ensures historyMtx == old(historyMtx) && historyBeatSeries == old(historyBeatSeries)
      ensures highlighted == old(highlighted)
      ensures activeX == old(activeX) && activeY == old(activeY)
      ensures gameResults == old(gameResults)
    {
      if mtx[i][j] == 0 || mtx[i][j] > 2 {
        return NotAMan;
      }
      mtx := Set(mtx, i, j, mtx[i][j] + 2);
      r := Done;
    }

    /** A copy of the current matrix. */
    method GetBoard() returns (m: Matrix)
      ensures m == mtx
    {
      m := mtx;
    }

    /** Highlights every listed cell, keeping the cells already highlighted. */
    method HighlightCells(cells: seq<(int, int)>)
      requires forall k | 0 <= k < |cells| :: InBounds(cells[k].0, cells[k].1)
      modifies this
      ensures forall p, q | InBounds(p, q) ::
                highlighted[p][q] == (old(highlighted)[p][q] || (p, q) in cells)
      ensures mtx == old(mtx)
      ensures historyMtx == old(historyMtx) && historyBeatSeries == old(historyBeatSeries)
      ensures activeX == old(activeX) && activeY == old(activeY)
      ensures gameResults == old(gameResults)
    {
      for k := 0 to |cells|
        invariant forall p, q | InBounds(p, q) ::
                    highlighted[p][q] == (old(highlighted)[p][q] || (p, q) in cells[..k])
        invariant mtx == old(mtx)
        invariant historyMtx == old(historyMtx) && historyBeatSeries == old(historyBeatSeries)
        invariant activeX == old(activeX) && activeY == old(activeY)
        invariant gameResults == old(gameResults)
      {
        var (x, y) := cells[k];
        assert cells[..k + 1] == cells[..k] + [(x, y)];
        var row: seq<bool> := highlighted[x][y := true];
        highlighted := highlighted[x := row];
      }
      assert cells[..|cells|] == cells;
    }

    /** Removes every highlight. */
    method ClearHighlight()
      modifies this
      ensures highlighted == NoHighlight
      ensures mtx == old(mtx)
      ensures historyMtx == old(historyMtx) && historyBeatSeries == old(historyBeatSeries)
      ensures activeX == old(activeX) && activeY == old(activeY)
      ensures gameResults == old(gameResults)
    {
      for i := 0 to 8
        invariant forall p | 0 <= p < i :: highlighted[p] == NoHighlight[p]
        invariant mtx == old(mtx)
        invariant historyMtx == old(historyMtx) && historyBeatSeries == old(historyBeatSeries)
        invariant activeX == old(activeX) && activeY == old(activeY)
        invariant gameResults == old(gameResults)
      {
        highlighted := highlighted[i := seq(8, j => false)];
      }
    }

    /** Selects the piece at (x, y). */
    method SetActive(x: int, y: int)
      modifies this
      ensures activeX == x && activeY == y
      ensures mtx == old(mtx) && highlighted == old(highlighted)
      ensures historyMtx == old(historyMtx) && historyBeatSeries == old(historyBeatSeries)
      ensures gameResults == old(gameResults)
    {
      activeX, activeY := x, y;
    }

    /** Deselects: the selection becomes (-1, -1). */
    method ClearActive()
      modifies this
      ensures activeX == -1 && activeY == -1
      ensures mtx == old(mtx) && highlighted == old(highlighted)
      ensures historyMtx == old(historyMtx) && historyBeatSeries == old(historyBeatSeries)
      ensures gameResults == old(gameResults)
    {
      activeX, activeY := -1, -1;
    }

    /** Whether cell (x, y) is highlighted. */
    method IsHighlighted(x: int, y: int) returns (b: bool)
      requires InBounds(x, y)
      ensures b == highlighted[x][y]
    {
      b := highlighted[x][y];
    }

    /** Undoes the last move: drops max(1, last beat-series count) snapshots but never
        the first, restores the matrix from the snapshot left on top, and clears the
        highlight and the selection. */
    method Rollback()
      requires Valid() && |historyMtx| >= 1
      modifies this
      ensures var n := |old(historyMtx)|;
              var k := Popped(old(historyBeatSeries)[n - 1], n);
              && historyMtx == old(historyMtx)[..n - k]
              && historyBeatSeries == old(historyBeatSeries)[..n - k]
      ensures |historyMtx| >= 1 && mtx == historyMtx[|historyMtx| - 1]
      ensures highlighted == NoHighlight && activeX == -1 && activeY == -1
      ensures gameResults == old(gameResults)
      ensures Valid()
    {
      var last := historyBeatSeries[|historyBeatSeries| - 1];
      var bs := if last < 1 then 1 else last;
      ghost var n := |historyMtx|;
      ghost var k := Popped(last, n);
      while bs != 0 && |historyMtx| > 1
        invariant 0 <= bs <= (if last < 1 then 1 else last)
        invariant var d := (if last < 1 then 1 else last) - bs;
                  && 1 <= |historyMtx| == n - d
                  && historyMtx == old(historyMtx)[..n - d]
                  && historyBeatSeries == old(historyBeatSeries)[..n - d]
        invariant gameResults == old(gameResults)
        decreases bs
      {
        historyMtx := historyMtx[..|historyMtx| - 1];
        historyBeatSeries := historyBeatSeries[..|historyBeatSeries| - 1];
        bs := bs - 1;
      }
      mtx := historyMtx[|historyMtx| - 1];
      ClearHighlight();
      ClearActive();
    }

    /** Sets up the starting position and records it with beat-series count 0. */
    method MakeStartMtx()
      modifies this
      ensures mtx == StartMatrix
      ensures historyMtx == old(historyMtx) + [StartMatrix]
      ensures historyBeatSeries == old(historyBeatSeries) + [0]
      ensures highlighted == old(highlighted)
      ensures activeX == old(activeX) && activeY == old(activeY)
      ensures gameResults == old(gameResults)
      ensures old(Valid()) ==> Valid()
    {
      for i := 0 to 8
        invariant forall p, q | InBounds(p, q) && p < i :: mtx[p][q] == StartCode(p, q)
        invariant historyMtx == old(historyMtx) && historyBeatSeries == old(historyBeatSeries)
        invariant highlighted == old(highlighted)
        invariant activeX == old(activeX) && activeY == old(activeY)
        invariant gameResults == old(gameResults)
      {
        for j := 0 to 8
          invariant forall p, q | InBounds(p, q) && (p < i || (p == i && q < j)) ::
                      mtx[p][q] == StartCode(p, q)
          invariant historyMtx == old(historyMtx) && historyBeatSeries == old(historyBeatSeries)
          invariant highlighted == old(highlighted)
          invariant activeX == old(activeX) && activeY == old(activeY)
          invariant gameResults == old(gameResults)
        {
          mtx := Set(mtx, i, j, 0);
          if i < 3 && (i + j) % 2 == 1 {
            mtx := Set(mtx, i, j, 2);
          }
          if i > 4 && (i + j) % 2 == 1 {
            mtx := Set(mtx, i, j, 1);
          }
        }
      }
      assert forall p | 0 <= p < 8 :: mtx[p] == StartMatrix[p];
      AddHistory(0);
    }

    /** Starts a new game: no result, a history holding only the starting position,
        nothing selected or highlighted. */
    method Redraw()
      modifies this
      ensures gameResults == -1
      ensures mtx == StartMatrix && historyMtx == [StartMatrix] && historyBeatSeries == [0]
      ensures highlighted == NoHighlight && activeX == -1 && activeY == -1
      ensures Valid()
    {
      gameResults := -1;
      historyMtx := [];
      historyBeatSeries := [];
      MakeStartMtx();
      ClearActive();
      ClearHighlight();
    }
  }

  const BlackOdd: seq<Code> := [0, 2] + [0, 2] + [0, 2] + [0, 2]
  const BlackEven: seq<Code> := [2, 0] + [2, 0] + [2, 0] + [2, 0]
  const WhiteOdd: seq<Code> := [0, 1] + [0, 1] + [0, 1] + [0, 1]
  const WhiteEven: seq<Code> := [1, 0] + [1, 0] + [1, 0] + [1, 0]
  const EmptyRow: seq<Code> := [0, 0] + [0, 0] + [0, 0] + [0, 0]

  lemma StartRows()
    ensures StartMatrix == [BlackOdd, BlackEven, BlackOdd, EmptyRow, EmptyRow,
                            WhiteEven, WhiteOdd, WhiteEven]
  {
    assert StartMatrix[0] == BlackOdd && StartMatrix[1] == BlackEven;
    assert StartMatrix[2] == BlackOdd && StartMatrix[3] == EmptyRow;
    assert StartMatrix[4] == EmptyRow && StartMatrix[5] == WhiteEven;
    assert StartMatrix[6] == WhiteOdd && StartMatrix[7] == WhiteEven;
  }

  /** The first k rows, concatenated, are the first 8 * k cells. */
  lemma FlattenPrefix(m: Matrix, k: nat, r: seq<Code>)
    requires k < 8 && r == Flatten(m)[..8 * k]
    ensures r + m[k] == Flatten(m)[..8 * k + 8]
  {
    var f := Flatten(m);
    forall q | 0 <= q < 8 * k + 8 ensures (r + m[k])[q] == f[q] {
      if q >= 8 * k {
        assert f[8 * k + (q - 8 * k)] == m[k][q - 8 * k];
      }
    }
  }

  lemma FlattenRows(m: Matrix)
    ensures Flatten(m) == m[0] + m[1] + m[2] + m[3] + m[4] + m[5] + m[6] + m[7]
  {
    var f := Flatten(m);
    FlattenPrefix(m, 0, []);
    assert [] + m[0] == m[0];
    FlattenPrefix(m, 1, m[0]);
    FlattenPrefix(m, 2, m[0] + m[1]);
    FlattenPrefix(m, 3, m[0] + m[1] + m[2]);
    FlattenPrefix(m, 4, m[0] + m[1] + m[2] + m[3]);
    FlattenPrefix(m, 5, m[0] + m[1] + m[2] + m[3] + m[4]);
    FlattenPrefix(m, 6, m[0] + m[1] + m[2] + m[3] + m[4] + m[5]);
    FlattenPrefix(m, 7, m[0] + m[1] + m[2] + m[3] + m[4] + m[5] + m[6]);
    assert f[..64] == f;
  }

  /** Occurrences of c in s, counted one cell at a time. */
  function Occ(s: seq<Code>, c: Code): (r: nat)
    ensures r == multiset(s)[c]
  {
    if s == [] then 0
    else (assert s == [s[0]] + s[1..]; (if s[0] == c then 1 else 0) + Occ(s[1..], c))
  }

  /** Occurrences of c in a row made of four copies of the pair [a, b]. */
  lemma PairRowCount(row: seq<Code>, a: Code, b: Code, c: Code)
    requires row == [a, b] + [a, b] + [a, b] + [a, b]
    ensures multiset(row)[c] == 4 * ((if a == c then 1 else 0) + (if b == c then 1 else 0))
  {
    assert multiset([a, b])[c] == (if a == c then 1 else 0) + (if b == c then 1 else 0);
  }

  lemma RowCounts(c: Code)
    ensures multiset(BlackOdd)[c] == multiset(BlackEven)[c] == if c == 0 || c == 2 then 4 else 0
    ensures multiset(WhiteOdd)[c] == multiset(WhiteEven)[c] == if c == 0 || c == 1 then 4 else 0
    ensures multiset(EmptyRow)[c] == if c == 0 then 8 else 0
  {
    PairRowCount(BlackOdd, 0, 2, c);
    PairRowCount(BlackEven, 2, 0, c);
    PairRowCount(WhiteOdd, 0, 1, c);
    PairRowCount(WhiteEven, 1, 0, c);
    PairRowCount(EmptyRow, 0, 0, c);
  }

  /** The starting position has twelve men of each colour and no kings. */
  lemma StartPieces()
    ensures CountCode(StartMatrix, 1) == 12 && CountCode(StartMatrix, 2) == 12
    ensures CountCode(StartMatrix, 3) == 0 && CountCode(StartMatrix, 4) == 0
  {
    StartRows();
    FlattenRows(StartMatrix);
    var ms := multiset(Flatten(StartMatrix));
    assert ms == multiset(BlackOdd) + multiset(BlackEven) + multiset(BlackOdd)
               + multiset(EmptyRow) + multiset(EmptyRow)
               + multiset(WhiteEven) + multiset(WhiteOdd) + multiset(WhiteEven);
    RowCounts(1);
    RowCounts(2);
    RowCounts(3);
    RowCounts(4);
  }

  /** Every piece of the starting position stands on a dark square (odd i + j), black
      men on rows 0-2 and white men on rows 5-7. */
  lemma StartSquares()
    ensures forall i, j | InBounds(i, j) && StartMatrix[i][j] != 0 ::
              (i + j) % 2 == 1 && (StartMatrix[i][j] == 2 <==> i < 3)
              && (StartMatrix[i][j] == 1 <==> i > 4)
  {
  }
}
