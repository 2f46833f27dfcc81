/** The moves of the piece on one square (Logic::find_turns(x, y, mtx)).
    The functions below follow the source's loops one for one, in the same order;
    the predicates IsManCapture, IsManStep, IsKingCapture and IsKingSlide state the
    draughts rules independently, and the lemmas prove that each list holds exactly
    the moves its rule allows. */
module MoveGen {
  import opened Moves
  import opened Cells
  import opened Evaluation

  // ---------------------------------------------------------------------------
  // Man captures: (i, j) runs over (x-2, y-2), (x-2, y+2), (x+2, y-2), (x+2, y+2).

  function ManCaptureAt(m: Matrix, x: int, y: int, i: int, j: int): seq<Move>
    requires InBounds(x, y)
  {
    if i < 0 || i > 7 || j < 0 || j > 7 then []
    else
      var xb, yb := (x + i) / 2, (y + j) / 2;
      if m[i][j] != 0 || m[xb][yb] == 0 || m[xb][yb] % 2 == m[x][y] % 2 then []
      else [Jump(x, y, i, j, xb, yb)]
  }

  function ManCaptureCols(m: Matrix, x: int, y: int, i: int, j: int): seq<Move>
    requires InBounds(x, y)
    decreases y + 6 - j
  {
    if j > y + 2 then [] else ManCaptureAt(m, x, y, i, j) + ManCaptureCols(m, x, y, i, j + 4)
  }

  function ManCaptureRows(m: Matrix, x: int, y: int, i: int): seq<Move>
    requires InBounds(x, y)
    decreases x + 6 - i
  {
    if i > x + 2 then [] else ManCaptureCols(m, x, y, i, y - 2) + ManCaptureRows(m, x, y, i + 4)
  }

  // ---------------------------------------------------------------------------
  // King captures: for each diagonal direction (di, dj), walk from the neighbour
  // to the edge; (xb, yb) is the piece taken so far on this ray, -1 if none.

  predicate IsDir(d: int) { d == -1 || d == 1 }

  /** A walk in direction (di, dj) at (i2, j2), at most one step beyond the board. */
  predicate RayAt(di: int, dj: int, i2: int, j2: int) {
    IsDir(di) && IsDir(dj) && -1 <= i2 <= 8 && -1 <= j2 <= 8
  }

  function KingCaptureRay(m: Matrix, x: int, y: int, di: int, dj: int,
                          i2: int, j2: int, xb: int, yb: int): seq<Move>
    requires InBounds(x, y) && RayAt(di, dj, i2, j2)
    decreases if di == 1 then 8 - i2 else i2 + 1
  {
    if i2 == 8 || j2 == 8 || i2 == -1 || j2 == -1 then []
    else if m[i2][j2] != 0 && (m[i2][j2] % 2 == m[x][y] % 2 || xb != -1) then []
    else
      var nxb := if m[i2][j2] != 0 then i2 else xb;
      var nyb := if m[i2][j2] != 0 then j2 else yb;
      var rest := KingCaptureRay(m, x, y, di, dj, i2 + di, j2 + dj, nxb, nyb);
      if nxb != -1 && nxb != i2 then [Jump(x, y, i2, j2, nxb, nyb)] + rest else rest
  }

  function KingCaptureCols(m: Matrix, x: int, y: int, i: int, j: int): seq<Move>
    requires InBounds(x, y) && IsDir(i) && (IsDir(j) || j == 3)
    decreases 3 - j
  {
    if j > 1 then []
    else KingCaptureRay(m, x, y, i, j, x + i, y + j, -1, -1) + KingCaptureCols(m, x, y, i, j + 2)
  }

  function KingCaptureRows(m: Matrix, x: int, y: int, i: int): seq<Move>
    requires InBounds(x, y) && (IsDir(i) || i == 3)
    decreases 3 - i
  {
    if i > 1 then [] else KingCaptureCols(m, x, y, i, -1) + KingCaptureRows(m, x, y, i + 2)
  }

  /** The captures of the piece on (x, y): codes 1 and 2 are men, every other code
      takes the king branch. */
  function Captures(m: Matrix, x: int, y: int): seq<Move>
    requires InBounds(x, y)
  {
    if m[x][y] == 1 || m[x][y] == 2 then ManCaptureRows(m, x, y, x - 2)
    else KingCaptureRows(m, x, y, -1)
  }

  // ---------------------------------------------------------------------------
  // Moves without a capture.

  /** The row a man steps to: white (odd) moves up, black (even) moves down. */
  function ForwardRow(c: Code, x: int): int {
    if c % 2 == 1 then x - 1 else x + 1
  }

  function ManStepAt(m: Matrix, x: int, y: int, i: int, j: int): seq<Move> {
    if i < 0 || i > 7 || j < 0 || j > 7 || m[i][j] != 0 then [] else [Step(x, y, i, j)]
  }

  function ManStepCols(m: Matrix, x: int, y: int, i: int, j: int): seq<Move>
    decreases y + 3 - j
  {
    if j > y + 1 then [] else ManStepAt(m, x, y, i, j) + ManStepCols(m, x, y, i, j + 2)
  }

  function KingSlideRay(m: Matrix, x: int, y: int, di: int, dj: int, i2: int, j2: int): seq<Move>
    requires RayAt(di, dj, i2, j2)
    decreases if di == 1 then 8 - i2 else i2 + 1
  {
    if i2 == 8 || j2 == 8 || i2 == -1 || j2 == -1 then []
    else if m[i2][j2] != 0 then []
    else [Step(x, y, i2, j2)] + KingSlideRay(m, x, y, di, dj, i2 + di, j2 + dj)
  }

  function KingSlideCols(m: Matrix, x: int, y: int, i: int, j: int): seq<Move>
    requires InBounds(x, y) && IsDir(i) && (IsDir(j) || j == 3)
    decreases 3 - j
  {
    if j > 1 then []
    else KingSlideRay(m, x, y, i, j, x + i, y + j) + KingSlideCols(m, x, y, i, j + 2)
  }

  function KingSlideRows(m: Matrix, x: int, y: int, i: int): seq<Move>
    requires InBounds(x, y) && (IsDir(i) || i == 3)
    decreases 3 - i
  {
    if i > 1 then [] else KingSlideCols(m, x, y, i, -1) + KingSlideRows(m, x, y, i + 2)
  }

  function Simples(m: Matrix, x: int, y: int): seq<Move>
    requires InBounds(x, y)
  {
    if m[x][y] == 1 || m[x][y] == 2 then ManStepCols(m, x, y, ForwardRow(m[x][y], x), y - 1)
    else KingSlideRows(m, x, y, -1)
  }

  /** find_turns(x, y, mtx): the captures if there is one (the flag have_beats is then
      true), otherwise the plain moves. */
  function SquareMoves(m: Matrix, x: int, y: int): (seq<Move>, bool)
    requires InBounds(x, y) && m[x][y] != 0
  {
    var c := Captures(m, x, y);
    if |c| > 0 then (c, true) else (Simples(m, x, y), false)
  }

  // ---------------------------------------------------------------------------
  // The rules, stated independently of the loops.

  /** A man jumps two squares diagonally (in any of the four directions) over an
      occupied square of the other colour onto an empty square. */
  predicate IsManCapture(m: Matrix, x: int, y: int, mv: Move)
    requires InBounds(x, y)
  {
    && mv.x == x && mv.y == y
    && (mv.x2 == x - 2 || mv.x2 == x + 2) && (mv.y2 == y - 2 || mv.y2 == y + 2)
    && InBounds(mv.x2, mv.y2) && m[mv.x2][mv.y2] == 0
    && mv.xb == (x + mv.x2) / 2 && mv.yb == (y + mv.y2) / 2
    && m[mv.xb][mv.yb] != 0 && m[mv.xb][mv.yb] % 2 != m[x][y] % 2
  }

  /** A man steps one row forward, to a neighbouring column, onto an empty square. */
  predicate IsManStep(m: Matrix, x: int, y: int, mv: Move)
    requires InBounds(x, y)
  {
    && mv.x == x && mv.y == y && mv.xb == -1 && mv.yb == -1
    && mv.x2 == ForwardRow(m[x][y], x) && (mv.y2 == y - 1 || mv.y2 == y + 1)
    && InBounds(mv.x2, mv.y2) && m[mv.x2][mv.y2] == 0
  }

  /** The squares at distances lo .. hi-1 from (x, y) along (di, dj) are on the board and empty. */
  predicate RayEmpty(m: Matrix, x: int, y: int, di: int, dj: int, lo: int, hi: int) {
    forall k | lo <= k < hi :: InBounds(Off(x, di, k), Off(y, dj, k)) && m[Off(x, di, k)][Off(y, dj, k)] == 0
  }

  /** A king captures along one diagonal: the first occupied square on the ray (at
      distance c) holds a piece of the other colour, and it lands on an empty square
      strictly beyond it (at distance l) with every square in between empty. */
  predicate IsKingCapture(m: Matrix, x: int, y: int, mv: Move)
    requires InBounds(x, y)
  {
    var di, dj := Sign(mv.x2 - x), Sign(mv.y2 - y);
    var l, c := Abs(mv.x2 - x), Abs(mv.xb - x);
    && mv.x == x && mv.y == y
    && Abs(mv.y2 - y) == l && 1 <= c < l && InBounds(mv.x2, mv.y2)
    && mv.xb == Off(x, di, c) && mv.yb == Off(y, dj, c)
    && RayEmpty(m, x, y, di, dj, 1, c)
    && m[mv.xb][mv.yb] != 0 && m[mv.xb][mv.yb] % 2 != m[x][y] % 2
    && RayEmpty(m, x, y, di, dj, c + 1, l + 1)
  }

  /** A king slides any distance along a diagonal over empty squares. */
  predicate IsKingSlide(m: Matrix, x: int, y: int, mv: Move)
    requires InBounds(x, y)
  {
    var di, dj := Sign(mv.x2 - x), Sign(mv.y2 - y);
    var l := Abs(mv.x2 - x);
    && mv.x == x && mv.y == y && mv.xb == -1 && mv.yb == -1
    && l >= 1 && Abs(mv.y2 - y) == l && InBounds(mv.x2, mv.y2)
    && RayEmpty(m, x, y, di, dj, 1, l + 1)
  }

  predicate IsCaptureRule(m: Matrix, x: int, y: int, mv: Move)
    requires InBounds(x, y)
  {
    if IsMan(m[x][y]) then IsManCapture(m, x, y, mv) else IsKingCapture(m, x, y, mv)
  }

  predicate IsSimpleRule(m: Matrix, x: int, y: int, mv: Move)
    requires InBounds(x, y)
  {
    if IsMan(m[x][y]) then IsManStep(m, x, y, mv) else IsKingSlide(m, x, y, mv)
  }

  // ---------------------------------------------------------------------------
  // Men: the loops produce exactly the moves the rules allow.

  lemma ManCapturesUnfold(m: Matrix, x: int, y: int)
    requires InBounds(x, y)
    ensures ManCaptureRows(m, x, y, x - 2)
         == ManCaptureAt(m, x, y, x - 2, y - 2) + ManCaptureAt(m, x, y, x - 2, y + 2)
          + ManCaptureAt(m, x, y, x + 2, y - 2) + ManCaptureAt(m, x, y, x + 2, y + 2)
  {
    assert ManCaptureCols(m, x, y, x - 2, y + 2) == ManCaptureAt(m, x, y, x - 2, y + 2);
    assert ManCaptureCols(m, x, y, x + 2, y + 2) == ManCaptureAt(m, x, y, x + 2, y + 2);
    assert ManCaptureRows(m, x, y, x + 2) == ManCaptureCols(m, x, y, x + 2, y - 2);
  }

  lemma ManCaptureAtExact(m: Matrix, x: int, y: int, i: int, j: int, mv: Move)
    requires InBounds(x, y) && (i == x - 2 || i == x + 2) && (j == y - 2 || j == y + 2)
    ensures mv in ManCaptureAt(m, x, y, i, j) <==> IsManCapture(m, x, y, mv) && mv.x2 == i && mv.y2 == j
  {
  }

  /** A man's capture list holds exactly its legal jumps (Logic.h:269-284). */
  lemma ManCapturesExact(m: Matrix, x: int, y: int)
    requires InBounds(x, y)
    ensures forall mv :: mv in ManCaptureRows(m, x, y, x - 2) <==> IsManCapture(m, x, y, mv)
  {
    ManCapturesUnfold(m, x, y);
    forall mv ensures mv in ManCaptureRows(m, x, y, x - 2) <==> IsManCapture(m, x, y, mv) {
      ManCaptureAtExact(m, x, y, x - 2, y - 2, mv);
      ManCaptureAtExact(m, x, y, x - 2, y + 2, mv);
      ManCaptureAtExact(m, x, y, x + 2, y - 2, mv);
      ManCaptureAtExact(m, x, y, x + 2, y + 2, mv);
    }
  }

  /** A man's plain moves are exactly its forward steps (Logic.h:320-332). */
  lemma ManStepsExact(m: Matrix, x: int, y: int)
    requires InBounds(x, y)
    ensures forall mv :: mv in ManStepCols(m, x, y, ForwardRow(m[x][y], x), y - 1)
                         <==> IsManStep(m, x, y, mv)
  {
    var i := ForwardRow(m[x][y], x);
    assert ManStepCols(m, x, y, i, y + 1) == ManStepAt(m, x, y, i, y + 1);
    assert ManStepCols(m, x, y, i, y - 1) == ManStepAt(m, x, y, i, y - 1) + ManStepAt(m, x, y, i, y + 1);
  }

  // ---------------------------------------------------------------------------
  // Kings: one ray at a time. Distance k along direction (di, dj) is the square
  // (Off(x, di, k), Off(y, dj, k)).

  /** A capture along the given direction. */
  predicate IsKingCaptureDir(m: Matrix, x: int, y: int, di: int, dj: int, mv: Move)
    requires InBounds(x, y)
  {
    IsKingCapture(m, x, y, mv) && Sign(mv.x2 - x) == di && Sign(mv.y2 - y) == dj
  }

  /** A slide along the given direction. */
  predicate IsKingSlideDir(m: Matrix, x: int, y: int, di: int, dj: int, mv: Move)
    requires InBounds(x, y)
  {
    IsKingSlide(m, x, y, mv) && Sign(mv.x2 - x) == di && Sign(mv.y2 - y) == dj
  }

  /** The squares of a ray between the start and an on-board square are on the board. */
  lemma RayInBounds(x: int, y: int, di: int, dj: int, l: int)
    requires InBounds(x, y) && IsDir(di) && IsDir(dj) && 0 <= l
    requires InBounds(Off(x, di, l), Off(y, dj, l))
    ensures forall k | 0 <= k <= l :: InBounds(Off(x, di, k), Off(y, dj, k))
  {
  }

  /** The shape of a king capture along (di, dj): the landing square is at distance l,
      the captured square at distance c, and every square up to l is on the board. */
  lemma KingCaptureDirShape(m: Matrix, x: int, y: int, di: int, dj: int, mv: Move)
    requires InBounds(x, y) && IsDir(di) && IsDir(dj)
    ensures IsKingCaptureDir(m, x, y, di, dj, mv) ==>
      var l, c := Abs(mv.x2 - x), Abs(mv.xb - x);
      && mv.x2 == Off(x, di, l) && mv.y2 == Off(y, dj, l)
      && mv.xb == Off(x, di, c) && mv.yb == Off(y, dj, c)
      && mv == Jump(x, y, mv.x2, mv.y2, mv.xb, mv.yb)
      && forall k | 0 <= k <= l :: InBounds(Off(x, di, k), Off(y, dj, k))
  {
    if IsKingCaptureDir(m, x, y, di, dj, mv) {
      RayInBounds(x, y, di, dj, Abs(mv.x2 - x));
    }
  }

  /** One square of an empty stretch of a ray. */
  lemma RayEmptyAt(m: Matrix, x: int, y: int, di: int, dj: int, lo: int, hi: int, k: int)
    ensures RayEmpty(m, x, y, di, dj, lo, hi) && lo <= k < hi
            ==> InBounds(Off(x, di, k), Off(y, dj, k)) && m[Off(x, di, k)][Off(y, dj, k)] == 0
  {
  }

  /** The walk has passed the enemy piece at distance c and reached distance k, with
      every square strictly between the start and the piece, and between the piece
      and distance k, empty. */
  predicate PastPiece(m: Matrix, x: int, y: int, di: int, dj: int, c: int, k: int) {
    && InBounds(x, y) && IsDir(di) && IsDir(dj) && 1 <= c < k
    && -1 <= Off(x, di, k) <= 8 && -1 <= Off(y, dj, k) <= 8
    && InBounds(Off(x, di, c), Off(y, dj, c))
    && m[Off(x, di, c)][Off(y, dj, c)] != 0
    && m[Off(x, di, c)][Off(y, dj, c)] % 2 != m[x][y] % 2
    && RayEmpty(m, x, y, di, dj, 1, c) && RayEmpty(m, x, y, di, dj, c + 1, k)
  }

  /** The walk has reached distance k over empty squares only. */
  predicate BeforePiece(m: Matrix, x: int, y: int, di: int, dj: int, k: int) {
    && InBounds(x, y) && IsDir(di) && IsDir(dj) && 1 <= k
    && -1 <= Off(x, di, k) <= 8 && -1 <= Off(y, dj, k) <= 8
    && RayEmpty(m, x, y, di, dj, 1, k)
  }

  /** The square at distance k of the ray. */
  predicate EmptyAt(m: Matrix, x: int, y: int, di: int, dj: int, k: int) {
    InBounds(Off(x, di, k), Off(y, dj, k)) && m[Off(x, di, k)][Off(y, dj, k)] == 0
  }

  lemma PastPieceNext(m: Matrix, x: int, y: int, di: int, dj: int, c: int, k: int)
    requires PastPiece(m, x, y, di, dj, c, k) && EmptyAt(m, x, y, di, dj, k)
    ensures PastPiece(m, x, y, di, dj, c, k + 1)
  {
  }

  lemma BeforePieceNext(m: Matrix, x: int, y: int, di: int, dj: int, k: int)
    requires BeforePiece(m, x, y, di, dj, k) && EmptyAt(m, x, y, di, dj, k)
    ensures BeforePiece(m, x, y, di, dj, k + 1)
  {
  }

  lemma BeforeToPast(m: Matrix, x: int, y: int, di: int, dj: int, k: int)
    requires BeforePiece(m, x, y, di, dj, k) && InBounds(Off(x, di, k), Off(y, dj, k))
    requires m[Off(x, di, k)][Off(y, dj, k)] != 0
    requires m[Off(x, di, k)][Off(y, dj, k)] % 2 != m[x][y] % 2
    ensures PastPiece(m, x, y, di, dj, k, k + 1)
  {
  }

  /** The captured piece of a king capture is the first occupied square of its ray. */
  lemma KingCaptureFirstPiece(m: Matrix, x: int, y: int, di: int, dj: int, c: int, k: int, mv: Move)
    requires PastPiece(m, x, y, di, dj, c, k)
    ensures IsKingCaptureDir(m, x, y, di, dj, mv) ==> Abs(mv.xb - x) == c
  {
    var c2 := Abs(mv.xb - x);
    RayEmptyAt(m, x, y, di, dj, 1, c, c2);
    RayEmptyAt(m, x, y, di, dj, 1, c2, c);
  }

  /** Past the piece at distance c, a capture landing at distance k or beyond lands
      either on the empty square at distance k or beyond it. */
  lemma KingCaptureStep(m: Matrix, x: int, y: int, di: int, dj: int, k: int, c: int, mv: Move)
    requires PastPiece(m, x, y, di, dj, c, k) && EmptyAt(m, x, y, di, dj, k)
    requires IsKingCaptureDir(m, x, y, di, dj, mv) ==> Abs(mv.xb - x) == c
    ensures IsKingCaptureDir(m, x, y, di, dj, mv) && Abs(mv.x2 - x) >= k
        <==> mv == Jump(x, y, Off(x, di, k), Off(y, dj, k), Off(x, di, c), Off(y, dj, c))
             || (IsKingCaptureDir(m, x, y, di, dj, mv) && Abs(mv.x2 - x) >= k + 1)
  {
    KingCaptureDirShape(m, x, y, di, dj, mv);
    PastPieceNext(m, x, y, di, dj, c, k);
  }

  /** No capture past the piece at distance c lands at distance k or beyond when the
      square at distance k is off the board or occupied. */
  lemma KingCaptureStops(m: Matrix, x: int, y: int, di: int, dj: int, k: int, c: int, mv: Move)
    requires InBounds(x, y) && IsDir(di) && IsDir(dj) && 1 <= c < k
    requires !EmptyAt(m, x, y, di, dj, k)
    requires IsKingCaptureDir(m, x, y, di, dj, mv) ==> Abs(mv.xb - x) == c
    ensures !(IsKingCaptureDir(m, x, y, di, dj, mv) && Abs(mv.x2 - x) >= k)
  {
    KingCaptureDirShape(m, x, y, di, dj, mv);
    RayEmptyAt(m, x, y, di, dj, c + 1, Abs(mv.x2 - x) + 1, k);
  }

  /** No capture along a ray whose first non-empty square, at distance k, is off the
      board or holds a piece of the king's own colour. */
  lemma KingCaptureBlocked(m: Matrix, x: int, y: int, di: int, dj: int, k: int, mv: Move)
    requires BeforePiece(m, x, y, di, dj, k)
    requires !InBounds(Off(x, di, k), Off(y, dj, k))
             || (m[Off(x, di, k)][Off(y, dj, k)] != 0 && m[Off(x, di, k)][Off(y, dj, k)] % 2 == m[x][y] % 2)
    ensures !IsKingCaptureDir(m, x, y, di, dj, mv)
  {
    KingCaptureDirShape(m, x, y, di, dj, mv);
    var c2 := Abs(mv.xb - x);
    RayEmptyAt(m, x, y, di, dj, 1, k, c2);
    RayEmptyAt(m, x, y, di, dj, 1, c2, k);
  }

  // One step of the walk, on the function alone.

  lemma CaptureRaySkip(m: Matrix, x: int, y: int, di: int, dj: int, k: int)
    requires InBounds(x, y) && IsDir(di) && IsDir(dj) && 1 <= k && EmptyAt(m, x, y, di, dj, k)
    ensures -1 <= Off(x, di, k + 1) <= 8 && -1 <= Off(y, dj, k + 1) <= 8
    ensures KingCaptureRay(m, x, y, di, dj, Off(x, di, k), Off(y, dj, k), -1, -1)
         == KingCaptureRay(m, x, y, di, dj, Off(x, di, k + 1), Off(y, dj, k + 1), -1, -1)
  {
    assert Off(x, di, k + 1) == Off(x, di, k) + di && Off(y, dj, k + 1) == Off(y, dj, k) + dj;
  }

  lemma CaptureRayEnter(m: Matrix, x: int, y: int, di: int, dj: int, k: int)
    requires InBounds(x, y) && IsDir(di) && IsDir(dj) && 1 <= k
    requires InBounds(Off(x, di, k), Off(y, dj, k))
    requires m[Off(x, di, k)][Off(y, dj, k)] != 0
    requires m[Off(x, di, k)][Off(y, dj, k)] % 2 != m[x][y] % 2
    ensures -1 <= Off(x, di, k + 1) <= 8 && -1 <= Off(y, dj, k + 1) <= 8
    ensures KingCaptureRay(m, x, y, di, dj, Off(x, di, k), Off(y, dj, k), -1, -1)
         == KingCaptureRay(m, x, y, di, dj, Off(x, di, k + 1), Off(y, dj, k + 1), Off(x, di, k), Off(y, dj, k))
  {
    assert Off(x, di, k + 1) == Off(x, di, k) + di && Off(y, dj, k + 1) == Off(y, dj, k) + dj;
  }

  lemma CaptureRayEmit(m: Matrix, x: int, y: int, di: int, dj: int, k: int, c: int)
    requires InBounds(x, y) && IsDir(di) && IsDir(dj) && 1 <= c < k && EmptyAt(m, x, y, di, dj, k)
    requires InBounds(Off(x, di, c), Off(y, dj, c))
    ensures -1 <= Off(x, di, k + 1) <= 8 && -1 <= Off(y, dj, k + 1) <= 8
    ensures KingCaptureRay(m, x, y, di, dj, Off(x, di, k), Off(y, dj, k), Off(x, di, c), Off(y, dj, c))
         == [Jump(x, y, Off(x, di, k), Off(y, dj, k), Off(x, di, c), Off(y, dj, c))]
          + KingCaptureRay(m, x, y, di, dj, Off(x, di, k + 1), Off(y, dj, k + 1), Off(x, di, c), Off(y, dj, c))
  {
    assert Off(x, di, k + 1) == Off(x, di, k) + di && Off(y, dj, k + 1) == Off(y, dj, k) + dj;
  }

  /** The walk after passing the enemy piece at distance c: it emits a landing square
      for every empty square from distance k on, and stops at the next occupied one. */
  lemma KingRayAfter(m: Matrix, x: int, y: int, di: int, dj: int, k: int, c: int, mv: Move)
    requires PastPiece(m, x, y, di, dj, c, k)
    ensures mv in KingCaptureRay(m, x, y, di, dj, Off(x, di, k), Off(y, dj, k), Off(x, di, c), Off(y, dj, c))
            <==> IsKingCaptureDir(m, x, y, di, dj, mv) && Abs(mv.x2 - x) >= k
    decreases 8 - k, 1
  {
    KingCaptureFirstPiece(m, x, y, di, dj, c, k, mv);
    if EmptyAt(m, x, y, di, dj, k) {
      KingRayAfterEmpty(m, x, y, di, dj, k, c, mv);
    } else {
      KingCaptureStops(m, x, y, di, dj, k, c, mv);
    }
  }

  lemma KingRayAfterEmpty(m: Matrix, x: int, y: int, di: int, dj: int, k: int, c: int, mv: Move)
    requires PastPiece(m, x, y, di, dj, c, k) && EmptyAt(m, x, y, di, dj, k)
    requires IsKingCaptureDir(m, x, y, di, dj, mv) ==> Abs(mv.xb - x) == c
    ensures mv in KingCaptureRay(m, x, y, di, dj, Off(x, di, k), Off(y, dj, k), Off(x, di, c), Off(y, dj, c))
            <==> IsKingCaptureDir(m, x, y, di, dj, mv) && Abs(mv.x2 - x) >= k
    decreases 8 - k, 0
  {
    CaptureRayEmit(m, x, y, di, dj, k, c);
    KingCaptureStep(m, x, y, di, dj, k, c, mv);
    PastPieceNext(m, x, y, di, dj, c, k);
    KingRayAfter(m, x, y, di, dj, k + 1, c, mv);
  }

  /** The walk before meeting any piece, with the squares at distances 1 .. k-1 empty:
      it yields exactly the captures along this direction. */
  lemma KingRayBefore(m: Matrix, x: int, y: int, di: int, dj: int, k: int, mv: Move)
    requires BeforePiece(m, x, y, di, dj, k)
    ensures mv in KingCaptureRay(m, x, y, di, dj, Off(x, di, k), Off(y, dj, k), -1, -1)
            <==> IsKingCaptureDir(m, x, y, di, dj, mv)
    decreases 8 - k, 1
  {
    var i2, j2 := Off(x, di, k), Off(y, dj, k);
    if !InBounds(i2, j2) || (m[i2][j2] != 0 && m[i2][j2] % 2 == m[x][y] % 2) {
      KingCaptureBlocked(m, x, y, di, dj, k, mv);
    } else if m[i2][j2] != 0 {
      KingRayBeforeEnemy(m, x, y, di, dj, k, mv);
    } else {
      KingRayBeforeEmpty(m, x, y, di, dj, k, mv);
    }
  }

  /** The first piece on the ray is an enemy one: what follows is the walk past it. */
  lemma KingRayBeforeEnemy(m: Matrix, x: int, y: int, di: int, dj: int, k: int, mv: Move)
    requires BeforePiece(m, x, y, di, dj, k) && InBounds(Off(x, di, k), Off(y, dj, k))
    requires m[Off(x, di, k)][Off(y, dj, k)] != 0
    requires m[Off(x, di, k)][Off(y, dj, k)] % 2 != m[x][y] % 2
    ensures mv in KingCaptureRay(m, x, y, di, dj, Off(x, di, k), Off(y, dj, k), -1, -1)
            <==> IsKingCaptureDir(m, x, y, di, dj, mv)
  {
    BeforeToPast(m, x, y, di, dj, k);
    KingCaptureFirstPiece(m, x, y, di, dj, k, k + 1, mv);
    CaptureRayEnter(m, x, y, di, dj, k);
    KingRayAfter(m, x, y, di, dj, k + 1, k, mv);
  }

  lemma KingRayBeforeEmpty(m: Matrix, x: int, y: int, di: int, dj: int, k: int, mv: Move)
    requires BeforePiece(m, x, y, di, dj, k) && EmptyAt(m, x, y, di, dj, k)
    ensures mv in KingCaptureRay(m, x, y, di, dj, Off(x, di, k), Off(y, dj, k), -1, -1)
            <==> IsKingCaptureDir(m, x, y, di, dj, mv)
    decreases 8 - k, 0
  {
    BeforePieceNext(m, x, y, di, dj, k);
    CaptureRaySkip(m, x, y, di, dj, k);
    KingRayBefore(m, x, y, di, dj, k + 1, mv);
  }

  // ---------------------------------------------------------------------------
  // King slides along one ray.

  lemma KingSlideDirShape(m: Matrix, x: int, y: int, di: int, dj: int, mv: Move)
    requires InBounds(x, y) && IsDir(di) && IsDir(dj)
    ensures IsKingSlideDir(m, x, y, di, dj, mv) ==>
      var l := Abs(mv.x2 - x);
      && mv.x2 == Off(x, di, l) && mv.y2 == Off(y, dj, l)
      && mv == Step(x, y, mv.x2, mv.y2)
  {
  }

  lemma SlideRayStep(m: Matrix, x: int, y: int, di: int, dj: int, k: int)
    requires IsDir(di) && IsDir(dj) && EmptyAt(m, x, y, di, dj, k)
    ensures -1 <= Off(x, di, k + 1) <= 8 && -1 <= Off(y, dj, k + 1) <= 8
    ensures KingSlideRay(m, x, y, di, dj, Off(x, di, k), Off(y, dj, k))
         == [Step(x, y, Off(x, di, k), Off(y, dj, k))] + KingSlideRay(m, x, y, di, dj, Off(x, di, k + 1), Off(y, dj, k + 1))
  {
    assert Off(x, di, k + 1) == Off(x, di, k) + di && Off(y, dj, k + 1) == Off(y, dj, k) + dj;
  }

  /** Over empty squares up to distance k-1, a slide reaching distance k or beyond
      either stops on the empty square at distance k or goes beyond it. */
  lemma KingSlideStep(m: Matrix, x: int, y: int, di: int, dj: int, k: int, mv: Move)
    requires BeforePiece(m, x, y, di, dj, k) && EmptyAt(m, x, y, di, dj, k)
    ensures IsKingSlideDir(m, x, y, di, dj, mv) && Abs(mv.x2 - x) >= k
        <==> mv == Step(x, y, Off(x, di, k), Off(y, dj, k))
             || (IsKingSlideDir(m, x, y, di, dj, mv) && Abs(mv.x2 - x) >= k + 1)
  {
    KingSlideDirShape(m, x, y, di, dj, mv);
    BeforePieceNext(m, x, y, di, dj, k);
  }

  /** No slide reaches distance k or beyond when that square is off the board or occupied. */
  lemma KingSlideStops(m: Matrix, x: int, y: int, di: int, dj: int, k: int, mv: Move)
    requires InBounds(x, y) && IsDir(di) && IsDir(dj) && 1 <= k
    requires !EmptyAt(m, x, y, di, dj, k)
    ensures !(IsKingSlideDir(m, x, y, di, dj, mv) && Abs(mv.x2 - x) >= k)
  {
    KingSlideDirShape(m, x, y, di, dj, mv);
    RayEmptyAt(m, x, y, di, dj, 1, Abs(mv.x2 - x) + 1, k);
  }

  /** The slide walk from distance k yields exactly the slides of length k or more. */
  lemma KingSlideFrom(m: Matrix, x: int, y: int, di: int, dj: int, k: int, mv: Move)
    requires BeforePiece(m, x, y, di, dj, k)
    ensures mv in KingSlideRay(m, x, y, di, dj, Off(x, di, k), Off(y, dj, k))
            <==> IsKingSlideDir(m, x, y, di, dj, mv) && Abs(mv.x2 - x) >= k
    decreases 8 - k, 1
  {
    if EmptyAt(m, x, y, di, dj, k) {
      KingSlideFromEmpty(m, x, y, di, dj, k, mv);
    } else {
      KingSlideStops(m, x, y, di, dj, k, mv);
    }
  }

  lemma KingSlideFromEmpty(m: Matrix, x: int, y: int, di: int, dj: int, k: int, mv: Move)
    requires BeforePiece(m, x, y, di, dj, k) && EmptyAt(m, x, y, di, dj, k)
    ensures mv in KingSlideRay(m, x, y, di, dj, Off(x, di, k), Off(y, dj, k))
            <==> IsKingSlideDir(m, x, y, di, dj, mv) && Abs(mv.x2 - x) >= k
    decreases 8 - k, 0
  {
    SlideRayStep(m, x, y, di, dj, k);
    KingSlideStep(m, x, y, di, dj, k, mv);
    BeforePieceNext(m, x, y, di, dj, k);
    KingSlideFrom(m, x, y, di, dj, k + 1, mv);
  }

  // ---------------------------------------------------------------------------
  // Kings: the four rays together.

  /** The four rays' lists as the nested loops concatenate them. */
  lemma FourRays(a: seq<Move>, b: seq<Move>, c: seq<Move>, d: seq<Move>)
    ensures (a + (b + [])) + ((c + (d + [])) + []) == a + b + c + d
  {
    assert b + [] == b && d + [] == d;
    assert (c + d) + [] == c + d;
  }

  lemma KingCapturesUnfold(m: Matrix, x: int, y: int)
    requires InBounds(x, y)
    ensures KingCaptureRows(m, x, y, -1)
         == KingCaptureRay(m, x, y, -1, -1, Off(x, -1, 1), Off(y, -1, 1), -1, -1)
          + KingCaptureRay(m, x, y, -1, 1, Off(x, -1, 1), Off(y, 1, 1), -1, -1)
          + KingCaptureRay(m, x, y, 1, -1, Off(x, 1, 1), Off(y, -1, 1), -1, -1)
          + KingCaptureRay(m, x, y, 1, 1, Off(x, 1, 1), Off(y, 1, 1), -1, -1)
  {
    var a := KingCaptureRay(m, x, y, -1, -1, x - 1, y - 1, -1, -1);
    var b := KingCaptureRay(m, x, y, -1, 1, x - 1, y + 1, -1, -1);
    var c := KingCaptureRay(m, x, y, 1, -1, x + 1, y - 1, -1, -1);
    var d := KingCaptureRay(m, x, y, 1, 1, x + 1, y + 1, -1, -1);
    assert KingCaptureRows(m, x, y, -1) == (a + (b + [])) + ((c + (d + [])) + []);
    FourRays(a, b, c, d);
  }

  lemma KingSlidesUnfold(m: Matrix, x: int, y: int)
    requires InBounds(x, y)
    ensures KingSlideRows(m, x, y, -1)
         == KingSlideRay(m, x, y, -1, -1, Off(x, -1, 1), Off(y, -1, 1))
          + KingSlideRay(m, x, y, -1, 1, Off(x, -1, 1), Off(y, 1, 1))
          + KingSlideRay(m, x, y, 1, -1, Off(x, 1, 1), Off(y, -1, 1))
          + KingSlideRay(m, x, y, 1, 1, Off(x, 1, 1), Off(y, 1, 1))
  {
    var a := KingSlideRay(m, x, y, -1, -1, x - 1, y - 1);
    var b := KingSlideRay(m, x, y, -1, 1, x - 1, y + 1);
    var c := KingSlideRay(m, x, y, 1, -1, x + 1, y - 1);
    var d := KingSlideRay(m, x, y, 1, 1, x + 1, y + 1);
    assert KingSlideRows(m, x, y, -1) == (a + (b + [])) + ((c + (d + [])) + []);
    FourRays(a, b, c, d);
  }

  lemma KingCaptureMember(m: Matrix, x: int, y: int, mv: Move)
    requires InBounds(x, y)
    ensures mv in KingCaptureRows(m, x, y, -1) <==> IsKingCapture(m, x, y, mv)
  {
    KingCapturesUnfold(m, x, y);
    KingRayBefore(m, x, y, -1, -1, 1, mv);
    KingRayBefore(m, x, y, -1, 1, 1, mv);
    KingRayBefore(m, x, y, 1, -1, 1, mv);
    KingRayBefore(m, x, y, 1, 1, 1, mv);
  }

  lemma KingSlideMember(m: Matrix, x: int, y: int, mv: Move)
    requires InBounds(x, y)
    ensures mv in KingSlideRows(m, x, y, -1) <==> IsKingSlide(m, x, y, mv)
  {
    KingSlidesUnfold(m, x, y);
    KingSlideFrom(m, x, y, -1, -1, 1, mv);
    KingSlideFrom(m, x, y, -1, 1, 1, mv);
    KingSlideFrom(m, x, y, 1, -1, 1, mv);
    KingSlideFrom(m, x, y, 1, 1, 1, mv);
  }

  /** A king's capture list holds exactly the flying captures (Logic.h:287-309). */
  lemma KingCapturesExact(m: Matrix, x: int, y: int)
    requires InBounds(x, y)
    ensures forall mv :: mv in KingCaptureRows(m, x, y, -1) <==> IsKingCapture(m, x, y, mv)
  {
    forall mv ensures mv in KingCaptureRows(m, x, y, -1) <==> IsKingCapture(m, x, y, mv) {
      KingCaptureMember(m, x, y, mv);
    }
  }

  /** A king's plain moves are exactly its slides over empty squares (Logic.h:335-346). */
  lemma KingSlidesExact(m: Matrix, x: int, y: int)
    requires InBounds(x, y)
    ensures forall mv :: mv in KingSlideRows(m, x, y, -1) <==> IsKingSlide(m, x, y, mv)
  {
    forall mv ensures mv in KingSlideRows(m, x, y, -1) <==> IsKingSlide(m, x, y, mv) {
      KingSlideMember(m, x, y, mv);
    }
  }

  // ---------------------------------------------------------------------------
  // One square: find_turns(x, y, mtx).

  /** The captures of the piece on (x, y) are exactly the moves the capture rule of its
      kind allows. */
  lemma CapturesExact(m: Matrix, x: int, y: int)
    requires InBounds(x, y)
    ensures forall mv :: mv in Captures(m, x, y) <==> IsCaptureRule(m, x, y, mv)
  {
    if IsMan(m[x][y]) {
      ManCapturesExact(m, x, y);
    } else {
      KingCapturesExact(m, x, y);
    }
  }

  /** The plain moves of the piece on (x, y) are exactly the moves the plain-move rule
      of its kind allows. */
  lemma SimplesExact(m: Matrix, x: int, y: int)
    requires InBounds(x, y)
    ensures forall mv :: mv in Simples(m, x, y) <==> IsSimpleRule(m, x, y, mv)
  {
    if IsMan(m[x][y]) {
      ManStepsExact(m, x, y);
    } else {
      KingSlidesExact(m, x, y);
    }
  }

  /** A move the engine can apply: on the board, with distinct squares, an occupied
      start, an empty destination and, for a capture, an occupied captured square. */
  predicate Playable(m: Matrix, mv: Move) {
    && MoveInBounds(mv) && Distinct(mv)
    && m[mv.x][mv.y] != 0 && m[mv.x2][mv.y2] == 0
    && (IsCapture(mv) ==> m[mv.xb][mv.yb] != 0)
  }

  /** Every capture a rule allows starts on (x, y), takes a piece and is playable. */
  lemma CaptureRulePlayable(m: Matrix, x: int, y: int, mv: Move)
    requires InBounds(x, y) && m[x][y] != 0
    ensures IsCaptureRule(m, x, y, mv) ==> mv.x == x && mv.y == y && IsCapture(mv) && Playable(m, mv)
  {
    KingCaptureDirShape(m, x, y, Sign(mv.x2 - x), Sign(mv.y2 - y), mv);
  }

  /** Every plain move a rule allows starts on (x, y), takes nothing and is playable. */
  lemma SimpleRulePlayable(m: Matrix, x: int, y: int, mv: Move)
    requires InBounds(x, y) && m[x][y] != 0
    ensures IsSimpleRule(m, x, y, mv) ==> mv.x == x && mv.y == y && !IsCapture(mv) && Playable(m, mv)
  {
    var di, dj := Sign(mv.x2 - x), Sign(mv.y2 - y);
    KingSlideDirShape(m, x, y, di, dj, mv);
    RayEmptyAt(m, x, y, di, dj, 1, Abs(mv.x2 - x) + 1, Abs(mv.x2 - x));
  }

  /** find_turns(x, y, mtx) on an occupied square: have_beats is set exactly when the
      piece has a capture; the list then holds exactly its captures, and otherwise
      exactly its plain moves (Logic.h:263-264, 313-317). */
  lemma SquareMovesRules(m: Matrix, x: int, y: int)
    requires InBounds(x, y) && m[x][y] != 0
    ensures var (ts, hb) := SquareMoves(m, x, y);
      && (hb <==> exists mv :: IsCaptureRule(m, x, y, mv))
      && (hb ==> forall mv :: mv in ts <==> IsCaptureRule(m, x, y, mv))
      && (!hb ==> forall mv :: mv in ts <==> IsSimpleRule(m, x, y, mv))
      && forall mv | mv in ts :: mv.x == x && mv.y == y && IsCapture(mv) == hb && Playable(m, mv)
  {
    CapturesExact(m, x, y);
    SimplesExact(m, x, y);
    var c := Captures(m, x, y);
    if |c| > 0 {
      assert IsCaptureRule(m, x, y, c[0]);
    }
    forall mv ensures IsCaptureRule(m, x, y, mv) ==> mv.x == x && mv.y == y && IsCapture(mv) && Playable(m, mv)
      ensures IsSimpleRule(m, x, y, mv) ==> mv.x == x && mv.y == y && !IsCapture(mv) && Playable(m, mv)
    {
      CaptureRulePlayable(m, x, y, mv);
      SimpleRulePlayable(m, x, y, mv);
    }
  }
}
