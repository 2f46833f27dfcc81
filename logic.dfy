/** The bot (class Logic): move generation into the fields turns and have_beats, the
    alpha-beta search and the reconstruction of the chosen turn. Each method is proved
    against the functions of MoveGen, SideGen and Search that state what it computes. */
module LogicEngine {
  import opened Moves
  import opened Cells
  import opened Evaluation
  import opened MoveGen
  import opened SideGen
  import opened Search
  import opened BoardState

  // ---------------------------------------------------------------------------
  // One iteration of each loop of find_turns(x, y, mtx), with the moves collected
  // so far in acc: what the rest of the list becomes after the iteration.

  lemma ManCaptureRowsStep(m: Matrix, x: int, y: int, i: int, acc: seq<Move>)
    requires InBounds(x, y)
    ensures acc + ManCaptureRows(m, x, y, i)
         == if i > x + 2 then acc
            else acc + (ManCaptureCols(m, x, y, i, y - 2) + ManCaptureRows(m, x, y, i + 4))
  {
    if i > x + 2 {
      Unit(acc);
    }
  }

  lemma ManCaptureColsStep(m: Matrix, x: int, y: int, i: int, j: int, acc: seq<Move>, rows: seq<Move>)
    requires InBounds(x, y)
    ensures acc + (ManCaptureCols(m, x, y, i, j) + rows)
         == if j > y + 2 then acc + rows
            else (acc + ManCaptureAt(m, x, y, i, j)) + (ManCaptureCols(m, x, y, i, j + 4) + rows)
  {
    if j > y + 2 {
      Unit(rows);
    } else {
      Regroup(acc, ManCaptureAt(m, x, y, i, j), ManCaptureCols(m, x, y, i, j + 4), rows);
    }
  }

  /** The king's capture walk ends at the edge and at a piece it cannot take. */
  lemma CaptureRayStop(m: Matrix, x: int, y: int, di: int, dj: int, i2: int, j2: int, xb: int, yb: int)
    requires InBounds(x, y) && RayAt(di, dj, i2, j2)
    requires !InBounds(i2, j2) || (m[i2][j2] != 0 && (m[i2][j2] % 2 == m[x][y] % 2 || xb != -1))
    ensures KingCaptureRay(m, x, y, di, dj, i2, j2, xb, yb) == []
  {
  }

  /** At the edge the walk is over: what was collected is all of it. */
  lemma CaptureRayEdge(m: Matrix, x: int, y: int, di: int, dj: int, i2: int, j2: int, xb: int, yb: int,
                       acc: seq<Move>, total: seq<Move>)
    requires InBounds(x, y) && RayAt(di, dj, i2, j2) && !InBounds(i2, j2)
    requires acc + KingCaptureRay(m, x, y, di, dj, i2, j2, xb, yb) == total
    ensures acc == total
  {
    CaptureRayStop(m, x, y, di, dj, i2, j2, xb, yb);
    Unit(acc);
  }

  /** One square of the walk past which it goes on: (nxb, nyb) is the piece taken so
      far once the square is seen, and a landing square behind it is emitted. */
  lemma CaptureRayPass(m: Matrix, x: int, y: int, di: int, dj: int, i2: int, j2: int,
                       xb: int, yb: int, nxb: int, nyb: int, acc: seq<Move>)
    requires InBounds(x, y) && IsDir(di) && IsDir(dj) && InBounds(i2, j2)
    requires !(m[i2][j2] != 0 && (m[i2][j2] % 2 == m[x][y] % 2 || xb != -1))
    requires nxb == (if m[i2][j2] != 0 then i2 else xb) && nyb == (if m[i2][j2] != 0 then j2 else yb)
    ensures acc + KingCaptureRay(m, x, y, di, dj, i2, j2, xb, yb)
         == (if nxb != -1 && nxb != i2 then acc + [Jump(x, y, i2, j2, nxb, nyb)] else acc)
          + KingCaptureRay(m, x, y, di, dj, i2 + di, j2 + dj, nxb, nyb)
  {
    var rest := KingCaptureRay(m, x, y, di, dj, i2 + di, j2 + dj, nxb, nyb);
    Assoc(acc, [Jump(x, y, i2, j2, nxb, nyb)], rest);
  }

  lemma KingCaptureRowsStep(m: Matrix, x: int, y: int, i: int, acc: seq<Move>)
    requires InBounds(x, y) && (IsDir(i) || i == 3)
    ensures acc + KingCaptureRows(m, x, y, i)
         == if i > 1 then acc
            else acc + (KingCaptureCols(m, x, y, i, -1) + KingCaptureRows(m, x, y, i + 2))
  {
    if i > 1 {
      Unit(acc);
    }
  }

  lemma KingCaptureColsStep(m: Matrix, x: int, y: int, i: int, j: int, acc: seq<Move>, rows: seq<Move>)
    requires InBounds(x, y) && IsDir(i) && (IsDir(j) || j == 3)
    ensures acc + (KingCaptureCols(m, x, y, i, j) + rows)
         == if j > 1 then acc + rows
            else (acc + KingCaptureRay(m, x, y, i, j, x + i, y + j, -1, -1))
                 + (KingCaptureCols(m, x, y, i, j + 2) + rows)
  {
    if j > 1 {
      Unit(rows);
    } else {
      Regroup(acc, KingCaptureRay(m, x, y, i, j, x + i, y + j, -1, -1), KingCaptureCols(m, x, y, i, j + 2), rows);
    }
  }

  lemma ManStepColsStep(m: Matrix, x: int, y: int, i: int, j: int, acc: seq<Move>)
    ensures acc + ManStepCols(m, x, y, i, j)
         == if j > y + 1 then acc
            else if i < 0 || i > 7 || j < 0 || j > 7 || m[i][j] != 0 then acc + ManStepCols(m, x, y, i, j + 2)
            else (acc + [Step(x, y, i, j)]) + ManStepCols(m, x, y, i, j + 2)
  {
    if j > y + 1 {
      Unit(acc);
    } else {
      Assoc(acc, ManStepAt(m, x, y, i, j), ManStepCols(m, x, y, i, j + 2));
    }
  }

  /** The king's slide ends at the edge and at the first occupied square. */
  lemma SlideRayStop(m: Matrix, x: int, y: int, di: int, dj: int, i2: int, j2: int)
    requires RayAt(di, dj, i2, j2)
    requires !InBounds(i2, j2) || m[i2][j2] != 0
    ensures KingSlideRay(m, x, y, di, dj, i2, j2) == []
  {
  }

  /** An empty square of the slide is a landing square, and the walk goes on. */
  lemma SlideRayPass(m: Matrix, x: int, y: int, di: int, dj: int, i2: int, j2: int, acc: seq<Move>)
    requires IsDir(di) && IsDir(dj) && InBounds(i2, j2) && m[i2][j2] == 0
    ensures acc + KingSlideRay(m, x, y, di, dj, i2, j2)
         == (acc + [Step(x, y, i2, j2)]) + KingSlideRay(m, x, y, di, dj, i2 + di, j2 + dj)
  {
    Assoc(acc, [Step(x, y, i2, j2)], KingSlideRay(m, x, y, di, dj, i2 + di, j2 + dj));
  }

  lemma KingSlideRowsStep(m: Matrix, x: int, y: int, i: int, acc: seq<Move>)
    requires InBounds(x, y) && (IsDir(i) || i == 3)
    ensures acc + KingSlideRows(m, x, y, i)
         == if i > 1 then acc
            else acc + (KingSlideCols(m, x, y, i, -1) + KingSlideRows(m, x, y, i + 2))
  {
    if i > 1 {
      Unit(acc);
    }
  }

  lemma KingSlideColsStep(m: Matrix, x: int, y: int, i: int, j: int, acc: seq<Move>, rows: seq<Move>)
    requires InBounds(x, y) && IsDir(i) && (IsDir(j) || j == 3)
    ensures acc + (KingSlideCols(m, x, y, i, j) + rows)
         == if j > 1 then acc + rows
            else (acc + KingSlideRay(m, x, y, i, j, x + i, y + j)) + (KingSlideCols(m, x, y, i, j + 2) + rows)
  {
    if j > 1 {
      Unit(rows);
    } else {
      Regroup(acc, KingSlideRay(m, x, y, i, j, x + i, y + j), KingSlideCols(m, x, y, i, j + 2), rows);
    }
  }

  class Logic {
    var turns: seq<Move>
    var haveBeats: bool
    var maxDepth: nat
    /** The state of the random engine. */
    var rng: nat
    var nextMove: seq<Move>
    var nextBestState: seq<int>
    const board: Board
    const scoringMode: string
    const optimization: string
    /** scoring_mode == "NumberAndPotential" and optimization != "O0": the strings never
        change after construction, so each comparison is made once. */
    const potential: bool
    const pruning: bool
    /** std::shuffle driven by the random engine. */
    const shuffle: Shuffler

    /** The configuration the search reads. */
    function SearchParams(): Params
      reads this`maxDepth
    {
      Params(maxDepth, potential, pruning, shuffle)
    }

    /** The generator state: turns, have_beats and the random engine. */
    function GenState(): Gen
      reads this`turns, this`haveBeats, this`rng
    {
      Gen(turns, haveBeats, rng)
    }

    /** The two vectors next_move and next_best_state. */
    function Vectors(): Trace
      reads this`nextMove, this`nextBestState
    {
      Trace(nextMove, nextBestState)
    }

    /** A bot on board with the two configuration strings; seed is the engine's seed
        (the time, or 0 with NoRandom). Max_depth is set by the caller before a search. */
    constructor(board: Board, scoringMode: string, optimization: string, shuffle: Shuffler, seed: nat)
      ensures this.board == board && this.scoringMode == scoringMode
      ensures this.optimization == optimization && this.shuffle == shuffle
      ensures potential == (scoringMode == "NumberAndPotential") && pruning == (optimization != "O0")
      ensures rng == seed && turns == [] && haveBeats == false && maxDepth == 0
      ensures nextMove == [] && nextBestState == []
    {
      this.board := board;
      this.scoringMode := scoringMode;
      this.optimization := optimization;
      potential := scoringMode == "NumberAndPotential";
      pruning := optimization != "O0";
      this.shuffle := shuffle;
      rng := seed;
      turns := [];
      haveBeats := false;
      maxDepth := 0;
      nextMove := [];
      nextBestState := [];
    }

    // -------------------------------------------------------------------------
    // find_turns(x, y, mtx), one loop nest at a time.

    /** The man's captures: (i, j) over the four squares two steps away diagonally. */
    method AddManCaptures(x: int, y: int, m: Matrix)
      requires InBounds(x, y)
      modifies this`turns
      ensures turns == old(turns) + ManCaptureRows(m, x, y, x - 2)
    {
      ghost var total := turns + ManCaptureRows(m, x, y, x - 2);
      var i := x - 2;
      while i <= x + 2
        invariant i == x - 2 || i == x + 2 || i == x + 6
        invariant turns + ManCaptureRows(m, x, y, i) == total
        decreases x + 6 - i
      {
        ManCaptureRowsStep(m, x, y, i, turns);
        ghost var rows := ManCaptureRows(m, x, y, i + 4);
        var j := y - 2;
        while j <= y + 2
          invariant j == y - 2 || j == y + 2 || j == y + 6
          invariant turns + (ManCaptureCols(m, x, y, i, j) + rows) == total
          decreases y + 6 - j
        {
          ManCaptureColsStep(m, x, y, i, j, turns, rows);
          AddManCaptureAt(x, y, i, j, m);
          j := j + 4;
        }
        ManCaptureColsStep(m, x, y, i, j, turns, rows);
        i := i + 4;
      }
      ManCaptureRowsStep(m, x, y, i, turns);
    }

    /** The man's capture onto (i, j), if the square is on the board and empty and the
        square between holds a piece of the other colour. */
    method AddManCaptureAt(x: int, y: int, i: int, j: int, m: Matrix)
      requires InBounds(x, y)
      modifies this`turns
      ensures turns == old(turns) + ManCaptureAt(m, x, y, i, j)
    {
      if i < 0 || i > 7 || j < 0 || j > 7 {
        return;
      }
      var xb, yb := (x + i) / 2, (y + j) / 2;
      if m[i][j] != 0 || m[xb][yb] == 0 || m[xb][yb] % 2 == m[x][y] % 2 {
        return;
      }
      turns := turns + [Jump(x, y, i, j, xb, yb)];
    }

    /** The king's captures along direction (di, dj): past at most one piece of the
        other colour, every empty square behind it. */
    method AddKingCaptureRay(x: int, y: int, di: int, dj: int, m: Matrix)
      requires InBounds(x, y) && IsDir(di) && IsDir(dj)
      modifies this`turns
      ensures turns == old(turns) + KingCaptureRay(m, x, y, di, dj, x + di, y + dj, -1, -1)
    {
      var kind := m[x][y];
      var xb, yb := -1, -1;
      var i2, j2 := x + di, y + dj;
      ghost var total := turns + KingCaptureRay(m, x, y, di, dj, i2, j2, xb, yb);
      var stop := false;
      while i2 != 8 && j2 != 8 && i2 != -1 && j2 != -1
        invariant RayAt(di, dj, i2, j2) && !stop
        invariant turns + KingCaptureRay(m, x, y, di, dj, i2, j2, xb, yb) == total
        decreases if di == 1 then 8 - i2 else i2 + 1
      {
        stop, xb, yb := VisitCaptureRay(x, y, di, dj, i2, j2, xb, yb, kind, m, total);
        if stop {
          break;
        }
        i2, j2 := i2 + di, j2 + dj;
      }
      if !stop {
        CaptureRayEdge(m, x, y, di, dj, i2, j2, xb, yb, turns, total);
      }
    }

    /** One square (i2, j2) of the king's capture walk: stop at an own piece or at a
        second piece of the other colour, note the first one as the piece taken, and
        emit the squares behind it. total is the whole walk: what was collected so far
        followed by the rest from (i2, j2). */
    method VisitCaptureRay(x: int, y: int, di: int, dj: int, i2: int, j2: int, xb: int, yb: int,
                           kind: Code, m: Matrix, ghost total: seq<Move>)
      returns (stop: bool, xb1: int, yb1: int)
      requires InBounds(x, y) && IsDir(di) && IsDir(dj) && InBounds(i2, j2) && kind == m[x][y]
      requires turns + KingCaptureRay(m, x, y, di, dj, i2, j2, xb, yb) == total
      modifies this`turns
      ensures stop ==> turns == total
      ensures !stop ==> turns + KingCaptureRay(m, x, y, di, dj, i2 + di, j2 + dj, xb1, yb1) == total
    {
      stop, xb1, yb1 := false, xb, yb;
      var c := m[i2][j2];
      if c != 0 {
        if c % 2 == kind % 2 || (c % 2 != kind % 2 && xb != -1) {
          CaptureRayStop(m, x, y, di, dj, i2, j2, xb, yb);
          Unit(turns);
          stop := true;
          return;
        }
        xb1, yb1 := i2, j2;
      }
      CaptureRayPass(m, x, y, di, dj, i2, j2, xb, yb, xb1, yb1, turns);
      if xb1 != -1 && xb1 != i2 {
        turns := turns + [Jump(x, y, i2, j2, xb1, yb1)];
      }
    }

    /** The king's captures in the four directions, in the source's order. */
    method AddKingCaptures(x: int, y: int, m: Matrix)
      requires InBounds(x, y)
      modifies this`turns
      ensures turns == old(turns) + KingCaptureRows(m, x, y, -1)
    {
      ghost var total := turns + KingCaptureRows(m, x, y, -1);
      var i := -1;
      while i <= 1
        invariant i == -1 || i == 1 || i == 3
        invariant turns + KingCaptureRows(m, x, y, i) == total
        decreases 3 - i
      {
        KingCaptureRowsStep(m, x, y, i, turns);
        ghost var rows := KingCaptureRows(m, x, y, i + 2);
        var j := -1;
        while j <= 1
          invariant j == -1 || j == 1 || j == 3
          invariant turns + (KingCaptureCols(m, x, y, i, j) + rows) == total
          decreases 3 - j
        {
          KingCaptureColsStep(m, x, y, i, j, turns, rows);
          AddKingCaptureRay(x, y, i, j, m);
          j := j + 2;
        }
        KingCaptureColsStep(m, x, y, i, j, turns, rows);
        i := i + 2;
      }
      KingCaptureRowsStep(m, x, y, i, turns);
    }

    /** The man's steps: the two diagonal neighbours on its forward row that are empty. */
    method AddManSteps(x: int, y: int, m: Matrix)
      requires InBounds(x, y)
      modifies this`turns
      ensures turns == old(turns) + ManStepCols(m, x, y, ForwardRow(m[x][y], x), y - 1)
    {
      var i := if m[x][y] % 2 == 1 then x - 1 else x + 1;
      ghost var total := turns + ManStepCols(m, x, y, i, y - 1);
      var j := y - 1;
      while j <= y + 1
        invariant j == y - 1 || j == y + 1 || j == y + 3
        invariant turns + ManStepCols(m, x, y, i, j) == total
        decreases y + 3 - j
      {
        ManStepColsStep(m, x, y, i, j, turns);
        if !(i < 0 || i > 7 || j < 0 || j > 7 || m[i][j] != 0) {
          turns := turns + [Step(x, y, i, j)];
        }
        j := j + 2;
      }
      ManStepColsStep(m, x, y, i, j, turns);
    }

    /** The king's slides along direction (di, dj): every empty square up to the first
        occupied one. */
    method AddKingSlideRay(x: int, y: int, di: int, dj: int, m: Matrix)
      requires InBounds(x, y) && IsDir(di) && IsDir(dj)
      modifies this`turns
      ensures turns == old(turns) + KingSlideRay(m, x, y, di, dj, x + di, y + dj)
    {
      var i2, j2 := x + di, y + dj;
      ghost var total := turns + KingSlideRay(m, x, y, di, dj, i2, j2);
      while i2 != 8 && j2 != 8 && i2 != -1 && j2 != -1
        invariant RayAt(di, dj, i2, j2)
        invariant turns + KingSlideRay(m, x, y, di, dj, i2, j2) == total
        decreases if di == 1 then 8 - i2 else i2 + 1
      {
        if m[i2][j2] != 0 {
          SlideRayStop(m, x, y, di, dj, i2, j2);
          Unit(turns);
          break;
        }
        SlideRayPass(m, x, y, di, dj, i2, j2, turns);
        turns := turns + [Step(x, y, i2, j2)];
        i2, j2 := i2 + di, j2 + dj;
      }
      if !InBounds(i2, j2) {
        SlideRayStop(m, x, y, di, dj, i2, j2);
        Unit(turns);
      }
    }

    /** The king's slides in the four directions, in the source's order. */
    method AddKingSlides(x: int, y: int, m: Matrix)
      requires InBounds(x, y)
      modifies this`turns
      ensures turns == old(turns) + KingSlideRows(m, x, y, -1)
    {
      ghost var total := turns + KingSlideRows(m, x, y, -1);
      var i := -1;
      while i <= 1
        invariant i == -1 || i == 1 || i == 3
        invariant turns + KingSlideRows(m, x, y, i) == total
        decreases 3 - i
      {
        KingSlideRowsStep(m, x, y, i, turns);
        ghost var rows := KingSlideRows(m, x, y, i + 2);
        var j := -1;
        while j <= 1
          invariant j == -1 || j == 1 || j == 3
          invariant turns + (KingSlideCols(m, x, y, i, j) + rows) == total
          decreases 3 - j
        {
          KingSlideColsStep(m, x, y, i, j, turns, rows);
          AddKingSlideRay(x, y, i, j, m);
          j := j + 2;
        }
        KingSlideColsStep(m, x, y, i, j, turns, rows);
        i := i + 2;
      }
      KingSlideRowsStep(m, x, y, i, turns);
    }

    /** find_turns(x, y, mtx): the moves of the piece on (x, y); have_beats is set
        exactly when it has a capture, and then only the captures are kept. */
    method FindSquareTurnsOn(x: int, y: int, m: Matrix)
      requires InBounds(x, y) && m[x][y] != 0
      modifies this`turns, this`haveBeats
      ensures GenState() == SquareTurns(m, x, y, old(GenState()))
      ensures haveBeats <==> exists mv :: IsCaptureRule(m, x, y, mv)
      ensures forall mv :: mv in turns <==>
                if haveBeats then IsCaptureRule(m, x, y, mv) else IsSimpleRule(m, x, y, mv)
    {
      turns := [];
      haveBeats := false;
      var kind := m[x][y];
      if kind == 1 || kind == 2 {
        AddManCaptures(x, y, m);
        Unit(ManCaptureRows(m, x, y, x - 2));
      } else {
        AddKingCaptures(x, y, m);
        Unit(KingCaptureRows(m, x, y, -1));
      }
      assert turns == Captures(m, x, y);
      if |turns| != 0 {
        haveBeats := true;
      } else if kind == 1 || kind == 2 {
        assert turns == [];
        AddManSteps(x, y, m);
        Unit(ManStepCols(m, x, y, ForwardRow(m[x][y], x), y - 1));
      } else {
        assert turns == [];
        AddKingSlides(x, y, m);
        Unit(KingSlideRows(m, x, y, -1));
      }
      assert (turns, haveBeats) == SquareMoves(m, x, y);
      SquareMovesRules(m, x, y);
    }

    // -------------------------------------------------------------------------
    // find_turns(color, mtx) and the two public overloads.

    /** find_turns(color, mtx): the moves of every piece of the side, square by square
        in row-major order, keeping only captures once one is seen; the list is then
        shuffled and have_beats says whether it holds captures. */
    method FindSideTurnsOn(color: bool, m: Matrix)
      modifies this`turns, this`haveBeats, this`rng
      ensures GenState() == SideTurns(shuffle, m, color, old(GenState()))
    {
      ghost var total := SideMoves(m, color);
      var resTurns: seq<Move> := [];
      var haveBeatsBefore := false;
      for i := 0 to 8
        invariant SideScan(m, color, 8 * i, resTurns, haveBeatsBefore) == total
        invariant rng == old(rng)
      {
        resTurns, haveBeatsBefore := CollectRow(color, i, m, resTurns, haveBeatsBefore);
      }
      turns := resTurns;
      turns, rng := shuffle(turns, rng).0, shuffle(turns, rng).1;
      haveBeats := haveBeatsBefore;
    }

    /** The inner loop of the scan, over the squares of row i. */
    method CollectRow(color: bool, i: int, m: Matrix, res: seq<Move>, before: bool)
      returns (res1: seq<Move>, before1: bool)
      requires 0 <= i < 8
      modifies this`turns, this`haveBeats
      ensures SideScan(m, color, 8 * i, res, before) == SideScan(m, color, 8 * i + 8, res1, before1)
    {
      res1, before1 := res, before;
      for j := 0 to 8
        invariant SideScan(m, color, 8 * i, res, before) == SideScan(m, color, 8 * i + j, res1, before1)
      {
        SideScanSquare(m, color, i, j, res1, before1);
        res1, before1 := CollectSquare(color, i, j, m, res1, before1);
      }
    }

    /** The body of the scan for square (i, j): a square of the side adds its moves,
        a first capture discards the simple moves collected so far. */
    method CollectSquare(color: bool, i: int, j: int, m: Matrix, res: seq<Move>, before: bool)
      returns (res1: seq<Move>, before1: bool)
      requires InBounds(i, j)
      modifies this`turns, this`haveBeats
      ensures (res1, before1)
           == if Own(m, color, i, j) then Collect(res, before, SquareMoves(m, i, j).0, SquareMoves(m, i, j).1)
              else (res, before)
    {
      res1, before1 := res, before;
      if m[i][j] != 0 && m[i][j] % 2 != (if color then 1 else 0) {
        FindSquareTurnsOn(i, j, m);
        if haveBeats && !before1 {
          before1 := true;
          res1 := [];
        }
        if (before1 && haveBeats) || !before1 {
          res1 := res1 + turns;
        }
      }
    }

    /** find_turns(color): the side's moves on the board's current matrix. */
    method FindTurns(color: bool)
      modifies this`turns, this`haveBeats, this`rng
      ensures GenState() == SideTurns(shuffle, board.mtx, color, old(GenState()))
    {
      var m := board.GetBoard();
      FindSideTurnsOn(color, m);
    }

    /** find_turns(x, y): the moves of the piece on (x, y) of the board's matrix. */
    method FindSquareTurns(x: int, y: int)
      requires InBounds(x, y) && board.mtx[x][y] != 0
      modifies this`turns, this`haveBeats
      ensures GenState() == SquareTurns(board.mtx, x, y, old(GenState()))
    {
      var m := board.GetBoard();
      FindSquareTurnsOn(x, y, m);
    }

    // -------------------------------------------------------------------------
    // find_best_turns_rec

    /** find_best_turns_rec: the alpha-beta score of m with color to move at depth,
        continuing the capture chain on (x, y) when x != -1. */
    method SearchRec(m: Matrix, color: bool, depth: nat, alpha: real, beta: real, x: int, y: int)
      returns (s: real)
      requires depth <= maxDepth
      requires x != -1 ==> InBounds(x, y) && m[x][y] != 0
      modifies this`turns, this`haveBeats, this`rng
      ensures (s, GenState()) == Rec(SearchParams(), m, color, depth, alpha, beta, x, y, old(GenState()))
      decreases maxDepth - depth, Pieces(m), 3
    {
      ghost var p := SearchParams();
      RecUnfold(p, m, color, depth, alpha, beta, x, y, GenState());
      if depth == maxDepth {
        s := CalcScore(m, (depth % 2 == 1) == color, potential);
        return;
      }
      ghost var g0 := GenState();
      NodeTurns(m, color, x, y);
      assert GenState() == Turns(p, m, color, x, y, g0);
      var turnsNow := turns;
      var haveBeatsNow := haveBeats;
      if !haveBeatsNow && x != -1 {
        s := SearchRec(m, !color, depth + 1, alpha, beta, -1, -1);
        return;
      }
      if |turns| == 0 {
        s := if depth % 2 == 1 then 0.0 else INF;
        return;
      }
      s := SearchLoop(m, color, depth, alpha, beta, x, turnsNow, haveBeatsNow);
    }

    /** The moves find_best_turns_rec searches: those of the chain's square (x, y), or
        all of the side's when x is -1. */
    method NodeTurns(m: Matrix, color: bool, x: int, y: int)
      requires x != -1 ==> InBounds(x, y) && m[x][y] != 0
      modifies this`turns, this`haveBeats, this`rng
      ensures GenState() == Turns(SearchParams(), m, color, x, y, old(GenState()))
      ensures MovesOk(m, turns, haveBeats)
    {
      if x != -1 {
        FindSquareTurnsOn(x, y, m);
      } else {
        FindSideTurnsOn(color, m);
      }
    }

    /** The loop of find_best_turns_rec over the generated moves: minimum and maximum of
        the children's scores, the window narrowed after each, and the cutoff. */
    method SearchLoop(m: Matrix, color: bool, depth: nat, alpha: real, beta: real, x: int,
                      ts: seq<Move>, hb: bool)
      returns (s: real)
      requires depth < maxDepth
      requires MovesOk(m, ts, hb) && (x != -1 ==> hb)
      modifies this`turns, this`haveBeats, this`rng
      ensures (s, GenState())
           == RecLoop(SearchParams(), m, color, depth, alpha, beta, x, ts, hb, 0, INF + 1.0, -1.0,
                      old(GenState()))
      decreases maxDepth - depth, Pieces(m), 2
    {
      ghost var p := SearchParams();
      ghost var total := RecLoop(p, m, color, depth, alpha, beta, x, ts, hb, 0, INF + 1.0, -1.0, GenState());
      var minScore, maxScore := INF + 1.0, -1.0;
      var a, b := alpha, beta;
      var i := 0;
      while i < |ts|
        invariant i <= |ts|
        invariant RecLoop(p, m, color, depth, a, b, x, ts, hb, i, minScore, maxScore, GenState()) == total
      {
        ghost var g0, a0, b0, min0, max0 := GenState(), a, b, minScore, maxScore;
        var score;
        score, minScore, maxScore, a, b := SearchStep(m, color, depth, x, ts, hb, i, a, b, minScore, maxScore);
        if pruning && a >= b {
          SearchLoopCut(p, m, color, depth, a0, b0, x, ts, hb, i, min0, max0, g0, score, GenState(),
                        minScore, maxScore, a, b);
          return if depth % 2 == 1 then maxScore + 1.0 else minScore - 1.0;
        }
        SearchLoopNext(p, m, color, depth, a0, b0, x, ts, hb, i, min0, max0, g0, score, GenState(),
                       minScore, maxScore, a, b);
        i := i + 1;
      }
      RecLoopEnd(p, m, color, depth, a, b, x, ts, hb, minScore, maxScore, GenState());
      s := if depth % 2 == 1 then maxScore else minScore;
    }

    /** One iteration of find_best_turns_rec's loop: the child's score, the running
        minimum and maximum, and alpha raised at odd depth or beta lowered at even depth. */
    method SearchStep(m: Matrix, color: bool, depth: nat, x: int, ts: seq<Move>, hb: bool, i: nat,
                      a: real, b: real, minS: real, maxS: real)
      returns (score: real, minS1: real, maxS1: real, a1: real, b1: real)
      requires depth < maxDepth && i < |ts|
      requires MovesOk(m, ts, hb) && (x != -1 ==> hb)
      modifies this`turns, this`haveBeats, this`rng
      ensures StepOk(SearchParams(), m, color, depth, a, b, x, ts, hb, i, minS, maxS, old(GenState()),
                     score, GenState(), minS1, maxS1, a1, b1)
      decreases maxDepth - depth, Pieces(m), 1
    {
      assert ts[i] in ts;
      score := SearchChild(m, color, depth, a, b, x, ts[i], hb);
      minS1 := Min(minS, score);
      maxS1 := Max(maxS, score);
      a1 := if depth % 2 == 1 then Max(a, maxS1) else a;
      b1 := if depth % 2 == 1 then b else Min(b, minS1);
    }

    /** The score of the child reached by move t: one ply deeper after a plain move,
        the rest of the chain from t's landing square after a capture. */
    method SearchChild(m: Matrix, color: bool, depth: nat, alpha: real, beta: real, x: int,
                       t: Move, hb: bool)
      returns (s: real)
      requires depth < maxDepth
      requires Playable(m, t) && IsCapture(t) == hb && (x != -1 ==> hb)
      modifies this`turns, this`haveBeats, this`rng
      ensures (s, GenState())
           == RecChild(SearchParams(), m, color, depth, alpha, beta, x, t, hb, old(GenState()))
      decreases maxDepth - depth, Pieces(m), 0
    {
      if !hb && x == -1 {
        s := SearchRec(MakeTurn(m, t), !color, depth + 1, alpha, beta, -1, -1);
      } else {
        CaptureShrinks(m, t);
        s := SearchRec(MakeTurn(m, t), color, depth, alpha, beta, t.x2, t.y2);
      }
    }

    // -------------------------------------------------------------------------
    // find_first_best_turn and find_best_turns(color)

    /** find_first_best_turn: pushes a new state onto the two vectors and returns the
        best score reachable from it, writing the move that reaches it into the state. */
    method FirstBest(m: Matrix, color: bool, x: int, y: int, state: nat, alpha: real)
      returns (s: real)
      requires |nextMove| == |nextBestState| == state
      requires state != 0 ==> InBounds(x, y) && m[x][y] != 0
      requires state == 0 ==> MovesOk(m, turns, haveBeats)
      modifies this`turns, this`haveBeats, this`rng, this`nextMove, this`nextBestState
      ensures (s, Vectors(), GenState())
           == First(SearchParams(), m, color, x, y, state, alpha, old(Vectors()), old(GenState()))
      decreases Pieces(m), 3
    {
      nextBestState := nextBestState + [-1];
      nextMove := nextMove + [Placeholder];
      if state != 0 {
        FindSquareTurnsOn(x, y, m);
      }
      var turnsNow := turns;
      var haveBeatsNow := haveBeats;
      if !haveBeatsNow && state != 0 {
        s := SearchRec(m, !color, 0, alpha, INF + 1.0, -1, -1);
        return;
      }
      s := FirstBestLoop(m, color, state, turnsNow, haveBeatsNow);
    }

    /** The loop of find_first_best_turn: a child scoring above the best so far becomes
        the best, and its move and state are recorded in state. */
    method FirstBestLoop(m: Matrix, color: bool, state: nat, ts: seq<Move>, hb: bool)
      returns (best: real)
      requires state < |nextMove| == |nextBestState|
      requires MovesOk(m, ts, hb)
      modifies this`turns, this`haveBeats, this`rng, this`nextMove, this`nextBestState
      ensures (best, Vectors(), GenState())
           == FirstLoop(SearchParams(), m, color, state, ts, hb, 0, -1.0, old(Vectors()), old(GenState()))
      decreases Pieces(m), 2
    {
      ghost var p := SearchParams();
      ghost var total := FirstLoop(p, m, color, state, ts, hb, 0, -1.0, Vectors(), GenState());
      best := -1.0;
      var i := 0;
      while i < |ts|
        invariant i <= |ts| && state < |nextMove| == |nextBestState|
        invariant FirstLoop(p, m, color, state, ts, hb, i, best, Vectors(), GenState()) == total
      {
        best := FirstBestStep(m, color, state, ts, hb, i, best);
        i := i + 1;
      }
    }

    /** One iteration of find_first_best_turn's loop: scores the child of move i and
        records the move and its state when the score beats best. */
    method FirstBestStep(m: Matrix, color: bool, state: nat, ts: seq<Move>, hb: bool, i: nat, best: real)
      returns (best1: real)
      requires state < |nextMove| == |nextBestState| && i < |ts|
      requires MovesOk(m, ts, hb)
      modifies this`turns, this`haveBeats, this`rng, this`nextMove, this`nextBestState
      ensures state < |nextMove| == |nextBestState|
      ensures FirstLoop(SearchParams(), m, color, state, ts, hb, i, best, old(Vectors()), old(GenState()))
           == FirstLoop(SearchParams(), m, color, state, ts, hb, i + 1, best1, Vectors(), GenState())
      decreases Pieces(m), 1
    {
      ghost var p, tr, g := SearchParams(), Vectors(), GenState();
      assert ts[i] in ts;
      var turn := ts[i];
      var nextState := |nextMove|;
      var score := FirstBestChild(m, color, turn, hb, best);
      ghost var tr2, g2 := Vectors(), GenState();
      assert FirstStepOk(p, m, color, ts, hb, i, best, tr, g, score, tr2, g2);
      if score > best {
        FirstLoopBetter(p, m, color, state, ts, hb, i, best, tr, g, score, tr2, g2);
        RecordBest(state, turn, if hb then nextState else -1);
        best1 := score;
      } else {
        FirstLoopKeep(p, m, color, state, ts, hb, i, best, tr, g, score, tr2, g2);
        best1 := best;
      }
    }

    /** Records turn as the best move of state, and link as the state it continues in. */
    method RecordBest(state: nat, turn: Move, link: int)
      requires state < |nextMove| == |nextBestState|
      modifies this`nextMove, this`nextBestState
      ensures Vectors() == Trace(old(nextMove)[state := turn], old(nextBestState)[state := link])
    {
      nextBestState := nextBestState[state := link];
      nextMove := nextMove[state := turn];
    }

    /** The child reached by move t in find_first_best_turn: the chain continued in a
        new state after a capture, the opponent's reply at depth 0 after a plain move. */
    method FirstBestChild(m: Matrix, color: bool, t: Move, hb: bool, best: real)
      returns (s: real)
      requires 0 < |nextMove| == |nextBestState|
      requires Playable(m, t) && IsCapture(t) == hb
      modifies this`turns, this`haveBeats, this`rng, this`nextMove, this`nextBestState
      ensures (s, Vectors(), GenState())
           == FirstChild(SearchParams(), m, color, t, hb, best, old(Vectors()), old(GenState()))
      decreases Pieces(m), 0
    {
      if hb {
        CaptureShrinks(m, t);
        s := FirstBest(MakeTurn(m, t), color, t.x2, t.y2, |nextMove|, best);
      } else {
        s := SearchRec(MakeTurn(m, t), !color, 0, best, INF + 1.0, -1, -1);
      }
    }

    /** find_best_turns(color): clears the vectors, searches from the board's matrix
        and follows the recorded states from state 0 to collect the bot's turn. The
        moves must be the ones find_turns(color) left for this matrix. */
    method FindBestTurns(color: bool) returns (res: seq<Move>)
      requires MovesOk(board.mtx, turns, haveBeats)
      modifies this`turns, this`haveBeats, this`rng, this`nextMove, this`nextBestState
      ensures (res, Vectors(), GenState()) == BestTurns(SearchParams(), board.mtx, color, old(GenState()))
      ensures |res| >= 1 && (res[0] == Placeholder || res[0] in old(turns)) && Chain(res)
      ensures !pruning && |old(turns)| > 0 ==>
        var vs := FirstValues(SearchParams(), board.mtx, color, old(turns), old(haveBeats), 0, old(GenState())).0;
        var k := ArgTop(-1.0, vs);
        && 0 <= k < |vs| && res[0] == old(turns)[k]
        && (forall j | 0 <= j < |vs| :: vs[j] <= vs[k])
        && (forall j | 0 <= j < k :: vs[j] < vs[k])
    {
      nextBestState := [];
      nextMove := [];
      var m := board.GetBoard();
      ghost var p, g := SearchParams(), GenState();
      assert Vectors() == Trace([], []);
      var _ := FirstBest(m, color, -1, -1, 0, -1.0);
      ghost var tr := Vectors();
      assert tr == First(p, m, color, -1, -1, 0, -1.0, Trace([], []), g).1;
      ghost var g2 := GenState();
      assert g2 == First(p, m, color, -1, -1, 0, -1.0, Trace([], []), g).2;
      FirstShape(p, m, color, -1, -1, 0, -1.0, Trace([], []), g);
      res := FollowStates();
      assert m == board.mtx && g == old(GenState()) && p == SearchParams();
      if !pruning && |g.turns| > 0 {
        BestTurnsBest(p, m, color, g);
      }
    }

    /** The do-while loop of find_best_turns(color): the move of state 0, then the move
        of each linked state while the link is set and the state holds a move. */
    method FollowStates() returns (res: seq<Move>)
      requires LinkedFrom(Vectors(), 0) && |nextMove| > 0
      ensures res == Walk(Vectors(), 0)
    {
      ghost var tr := Vectors();
      WalkUnfold(tr, 0);
      res := [nextMove[0]];
      var cur := nextBestState[0];
      while cur != -1 && nextMove[cur].x != -1
        invariant cur == -1 || 0 < cur < |nextMove|
        invariant res + WalkFrom(tr, cur) == Walk(tr, 0)
        decreases if cur == -1 then 0 else |nextMove| - cur
      {
        WalkUnfold(tr, cur);
        Assoc(res, [nextMove[cur]], WalkFrom(tr, nextBestState[cur]));
        res := res + [nextMove[cur]];
        cur := nextBestState[cur];
      }
      Unit(res);
    }
  }

  // ---------------------------------------------------------------------------
  // Unfolding lemmas for the methods' loops.

  /** Square 8 * i + j of the row-major numbering is (i, j). */
  lemma Square8(i: int, j: int)
    requires InBounds(i, j)
    ensures (8 * i + j) / 8 == i && (8 * i + j) % 8 == j
  {
  }

  /** The scan over square (i, j), numbered 8 * i + j. */
  lemma SideScanSquare(m: Matrix, color: bool, i: int, j: int, res: seq<Move>, before: bool)
    requires InBounds(i, j)
    ensures SideScan(m, color, 8 * i + j, res, before)
         == var next := if Own(m, color, i, j)
                        then Collect(res, before, SquareMoves(m, i, j).0, SquareMoves(m, i, j).1)
                        else (res, before);
            SideScan(m, color, 8 * i + j + 1, next.0, next.1)
  {
    Square8(i, j);
  }

  /** One node of the search: a leaf at the depth limit, otherwise the moves generated
      for it, then a pass to the opponent, a loss or win without moves, or the loop. */
  lemma RecUnfold(p: Params, m: Matrix, color: bool, depth: nat, alpha: real, beta: real,
                  x: int, y: int, g: Gen)
    requires depth <= p.maxDepth
    requires x != -1 ==> InBounds(x, y) && m[x][y] != 0
    ensures Rec(p, m, color, depth, alpha, beta, x, y, g)
         == if depth == p.maxDepth then (CalcScore(m, (depth % 2 == 1) == color, p.potential), g)
            else
              var g1 := Turns(p, m, color, x, y, g);
              if !g1.haveBeats && x != -1 then Rec(p, m, !color, depth + 1, alpha, beta, -1, -1, g1)
              else if |g1.turns| == 0 then (if depth % 2 == 1 then 0.0 else INF, g1)
              else RecLoop(p, m, color, depth, alpha, beta, x, g1.turns, g1.haveBeats, 0, INF + 1.0, -1.0, g1)
  {
  }

  /** The loop's result once every move has been scored. */
  lemma RecLoopEnd(p: Params, m: Matrix, color: bool, depth: nat, alpha: real, beta: real,
                   x: int, ts: seq<Move>, hb: bool, minS: real, maxS: real, g: Gen)
    requires depth < p.maxDepth
    requires MovesOk(m, ts, hb) && (x != -1 ==> hb)
    ensures RecLoop(p, m, color, depth, alpha, beta, x, ts, hb, |ts|, minS, maxS, g)
         == (if depth % 2 == 1 then maxS else minS, g)
  {
  }

  /** The child's score and generator state, and the extremes and window updated
      with that score, for move i of the search loop. */
  predicate StepOk(p: Params, m: Matrix, color: bool, depth: nat, alpha: real, beta: real,
                   x: int, ts: seq<Move>, hb: bool, i: nat, minS: real, maxS: real, g: Gen,
                   score: real, g2: Gen, minS1: real, maxS1: real, alpha1: real, beta1: real)
    requires depth < p.maxDepth && i < |ts|
    requires MovesOk(m, ts, hb) && (x != -1 ==> hb)
  {
    assert ts[i] in ts;
    && (score, g2) == RecChild(p, m, color, depth, alpha, beta, x, ts[i], hb, g)
    && minS1 == Min(minS, score) && maxS1 == Max(maxS, score)
    && alpha1 == (if depth % 2 == 1 then Max(alpha, maxS1) else alpha)
    && beta1 == (if depth % 2 == 1 then beta else Min(beta, minS1))
  }

  /** An iteration of the search loop that closes the window ends the loop. */
  lemma SearchLoopCut(p: Params, m: Matrix, color: bool, depth: nat, alpha: real, beta: real,
                      x: int, ts: seq<Move>, hb: bool, i: nat, minS: real, maxS: real, g: Gen,
                      score: real, g2: Gen, minS1: real, maxS1: real, alpha1: real, beta1: real)
    requires depth < p.maxDepth && i < |ts|
    requires MovesOk(m, ts, hb) && (x != -1 ==> hb)
    requires StepOk(p, m, color, depth, alpha, beta, x, ts, hb, i, minS, maxS, g,
                    score, g2, minS1, maxS1, alpha1, beta1)
    requires p.pruning && alpha1 >= beta1
    ensures RecLoop(p, m, color, depth, alpha, beta, x, ts, hb, i, minS, maxS, g)
         == (if depth % 2 == 1 then maxS1 + 1.0 else minS1 - 1.0, g2)
  {
    assert ts[i] in ts;
  }

  /** An iteration of the search loop that leaves the window open goes on with the
      next move. */
  lemma SearchLoopNext(p: Params, m: Matrix, color: bool, depth: nat, alpha: real, beta: real,
                       x: int, ts: seq<Move>, hb: bool, i: nat, minS: real, maxS: real, g: Gen,
                       score: real, g2: Gen, minS1: real, maxS1: real, alpha1: real, beta1: real)
    requires depth < p.maxDepth && i < |ts|
    requires MovesOk(m, ts, hb) && (x != -1 ==> hb)
    requires StepOk(p, m, color, depth, alpha, beta, x, ts, hb, i, minS, maxS, g,
                    score, g2, minS1, maxS1, alpha1, beta1)
    requires !(p.pruning && alpha1 >= beta1)
    ensures RecLoop(p, m, color, depth, alpha, beta, x, ts, hb, i, minS, maxS, g)
         == RecLoop(p, m, color, depth, alpha1, beta1, x, ts, hb, i + 1, minS1, maxS1, g2)
  {
    assert ts[i] in ts;
  }

  /** The moves of the turn from state cur on, none when the link is unset or the
      state holds no move. */
  ghost function WalkFrom(tr: Trace, cur: int): seq<Move>
    requires LinkedFrom(tr, 0) && (cur == -1 || 0 <= cur < |tr.moves|)
  {
    if cur != -1 && tr.moves[cur].x != -1 then Walk(tr, cur) else []
  }

  /** One step of the walk: the move of state cur, then the walk from its link. */
  lemma WalkUnfold(tr: Trace, cur: nat)
    requires LinkedFrom(tr, 0) && cur < |tr.moves|
    ensures LinkOk(tr, cur)
    ensures Walk(tr, cur) == [tr.moves[cur]] + WalkFrom(tr, tr.links[cur])
  {
    assert LinkOk(tr, cur);
  }
}
