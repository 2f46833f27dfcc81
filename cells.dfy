/** The 8x8 board matrix shared by the rules engine and the board state.
    Cell codes: 0 empty, 1 white man, 2 black man, 3 white king, 4 black king.
    The colour of a piece is the parity of its code: odd is white, even is black. */
module Cells {

  type Code = c: int | 0 <= c <= 4

  type Matrix = m: seq<seq<Code>> | |m| == 8 && forall i | 0 <= i < 8 :: |m[i]| == 8
    witness seq(8, i => seq(8, j => 0))

  const EmptyMatrix: Matrix := seq(8, i => seq(8, j => 0))

  predicate InBounds(i: int, j: int) {
    0 <= i < 8 && 0 <= j < 8
  }

  predicate IsMan(c: Code) { c == 1 || c == 2 }

  predicate IsKing(c: Code) { c == 3 || c == 4 }

  /** The matrix with cell (i, j) set to v and nothing else changed. */
  function Set(m: Matrix, i: int, j: int, v: Code): (r: Matrix)
    requires InBounds(i, j)
    ensures r[i][j] == v
    ensures forall p, q | InBounds(p, q) && (p, q) != (i, j) :: r[p][q] == m[p][q]
  {
    var row: seq<Code> := m[i][j := v];
    m[i := row]
  }

  /** The square k steps from x in direction d (d is -1 or 1). */
  function Off(x: int, d: int, k: int): int {
    if d > 0 then x + k else x - k
  }

  function Abs(n: int): nat { if n < 0 then -n else n }

  function Sign(n: int): int { if n < 0 then -1 else 1 }

  /** The 64 cells in row-major order. */
  function Flatten(m: Matrix): (s: seq<Code>)
    ensures |s| == 64
    ensures forall i, j | InBounds(i, j) :: s[8 * i + j] == m[i][j]
  {
    seq(64, p requires 0 <= p < 64 => m[p / 8][p % 8])
  }

  /** Number of cells holding code c. */
  function CountCode(m: Matrix, c: Code): nat {
    multiset(Flatten(m))[c]
  }

  /** Number of occupied cells. */
  function Pieces(m: Matrix): nat {
    |Flatten(m)| - CountCode(m, 0)
  }

  lemma FlattenSet(m: Matrix, i: int, j: int, v: Code)
    requires InBounds(i, j)
    ensures Flatten(Set(m, i, j, v)) == Flatten(m)[8 * i + j := v]
  {
    var a, b := Flatten(Set(m, i, j, v)), Flatten(m)[8 * i + j := v];
    forall p | 0 <= p < 64 ensures a[p] == b[p] {
      var r, q := p / 8, p % 8;
      CellIndex(p, r, q);
      assert a[p] == Set(m, i, j, v)[r][q];
      if p == 8 * i + j {
        CellIndexUnique(r, q, i, j);
      } else {
        assert (r, q) != (i, j);
        assert b[p] == m[r][q];
      }
    }
  }

  /** p is cell (p / 8, p % 8) of the row-major order. */
  lemma CellIndex(p: int, r: int, q: int)
    requires 0 <= p < 64 && r == p / 8 && q == p % 8
    ensures p == 8 * r + q && InBounds(r, q)
  { }

  /** Distinct cells have distinct positions in the row-major order. */
  lemma CellIndexUnique(r: int, q: int, i: int, j: int)
    requires InBounds(r, q) && InBounds(i, j) && 8 * r + q == 8 * i + j
    ensures r == i && q == j
  { }

  /** Writing v over cell (i, j) replaces one occurrence of the old code by v. */
  lemma MultisetSet(m: Matrix, i: int, j: int, v: Code)
    requires InBounds(i, j)
    ensures multiset(Flatten(Set(m, i, j, v)))
         == multiset(Flatten(m)) - multiset{m[i][j]} + multiset{v}
  {
    FlattenSet(m, i, j, v);
    var s := Flatten(m);
    assert s[8 * i + j] == m[i][j];
  }

  /** The number of pieces after overwriting one cell. */
  lemma PiecesSet(m: Matrix, i: int, j: int, v: Code)
    requires InBounds(i, j)
    ensures Pieces(Set(m, i, j, v))
         == Pieces(m) - (if m[i][j] != 0 then 1 else 0) + (if v != 0 then 1 else 0)
  {
    MultisetSet(m, i, j, v);
  }
}
