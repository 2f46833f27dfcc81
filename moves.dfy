/** One move of a piece: start square (x, y), destination (x2, y2) and, for a
    capture, the square (xb, yb) of the captured piece; a move without a
    capture has xb == yb == -1. Coordinates are (row, column). */
module Moves {

  datatype Move = Move(x: int, y: int, x2: int, y2: int, xb: int, yb: int)

  /** The four-argument constructor: a move without a capture. */
  function Step(x: int, y: int, x2: int, y2: int): (m: Move)
    ensures m.x == x && m.y == y && m.x2 == x2 && m.y2 == y2
    ensures m.xb == -1 && m.yb == -1
    ensures !IsCapture(m)
  {
    Move(x, y, x2, y2, -1, -1)
  }

  /** The six-argument constructor: all six coordinates are stored as given. */
  function Jump(x: int, y: int, x2: int, y2: int, xb: int, yb: int): (m: Move)
    ensures m.x == x && m.y == y && m.x2 == x2 && m.y2 == y2
    ensures m.xb == xb && m.yb == yb
  {
    Move(x, y, x2, y2, xb, yb)
  }

  /** The placeholder move (-1, -1, -1, -1) the search writes before it has chosen. */
  const Placeholder: Move := Move(-1, -1, -1, -1, -1, -1)

  predicate IsCapture(m: Move) {
    m.xb != -1
  }

  /** operator== : only the start and destination squares are compared. */
  predicate Equal(a: Move, b: Move) {
    a.x == b.x && a.y == b.y && a.x2 == b.x2 && a.y2 == b.y2
  }

  /** operator!= */
  predicate NotEqual(a: Move, b: Move) {
    !Equal(a, b)
  }

  /** Two moves differ exactly when one of the four endpoint coordinates differs; the
      captured square plays no part. */
  lemma NotEqualIffEndpoints(a: Move, b: Move)
    ensures NotEqual(a, b) <==> a.x != b.x || a.y != b.y || a.x2 != b.x2 || a.y2 != b.y2
    ensures NotEqual(a, b) ==> a != b
  {
  }

  /** Two moves that differ only in the captured square compare equal. */
  lemma EqualIgnoresCapture(a: Move, xb: int, yb: int)
    ensures Equal(a, a.(xb := xb, yb := yb))
    ensures (xb != a.xb) ==> a != a.(xb := xb, yb := yb)
  {
  }

  /** Equal holds exactly when the four endpoint coordinates agree. */
  lemma EqualIffEndpoints(a: Move, b: Move)
    ensures Equal(a, b) <==> (a.x, a.y, a.x2, a.y2) == (b.x, b.y, b.x2, b.y2)
  {
  }

  lemma EqualIsEquivalence(a: Move, b: Move, c: Move)
    ensures Equal(a, a)
    ensures Equal(a, b) ==> Equal(b, a)
    ensures Equal(a, b) && Equal(b, c) ==> Equal(a, c)
  {
  }

  /** A capture and the plain step with the same endpoints compare equal:
      this is what lets a clicked destination match a generated capture. */
  lemma StepMatchesJump(x: int, y: int, x2: int, y2: int, xb: int, yb: int)
    ensures Equal(Step(x, y, x2, y2), Jump(x, y, x2, y2, xb, yb))
  {
  }

  // Unit, Assoc and Regroup are plain facts about sequences. The proofs of the
  // capture lists call them to give the solver the regrouping it needs at each step.

  /** The empty list is a unit of concatenation. */
  lemma Unit(s: seq<Move>)
    ensures [] + s == s && s + [] == s
  {
  }

  /** Concatenation of move lists is associative. */
  lemma Assoc(a: seq<Move>, b: seq<Move>, c: seq<Move>)
    ensures a + (b + c) == (a + b) + c
  {
  }

  /** Regrouping a list made of a head, a middle and a tail after a prefix. */
  lemma Regroup(a: seq<Move>, b: seq<Move>, c: seq<Move>, d: seq<Move>)
    ensures a + ((b + c) + d) == (a + b) + (c + d)
  {
    Assoc(b, c, d);
    Assoc(a, b, c + d);
  }
}
