/** Applying a move to a copy of the board (Logic::make_turn) and the
    material evaluator (Logic::calc_score). */
module Evaluation {
  import opened Moves
  import opened Cells

  /** The sentinel score INF = 1e9. */
  const INF: real := 1000000000.0

  /** A man reaching the far row becomes a king: white (1) on row 0, black (2) on row 7. */
  function Promote(c: Code, row: int): (r: Code)
    ensures r != 0 <==> c != 0
    ensures r % 2 == c % 2
  {
    if (c == 1 && row == 0) || (c == 2 && row == 7) then c + 2 else c
  }

  predicate MoveInBounds(t: Move) {
    InBounds(t.x, t.y) && InBounds(t.x2, t.y2) && (t.xb != -1 ==> InBounds(t.xb, t.yb))
  }

  /** The squares a move touches: start, destination and (for a capture) the captured square. */
  predicate Touches(t: Move, p: int, q: int) {
    (p, q) == (t.x, t.y) || (p, q) == (t.x2, t.y2) || (t.xb != -1 && (p, q) == (t.xb, t.yb))
  }

  /** The first step of make_turn: the captured piece, if any, is removed. */
  function RemoveCaptured(m: Matrix, t: Move): (r: Matrix)
    requires MoveInBounds(t)
    ensures t.xb != -1 ==> r[t.xb][t.yb] == 0
    ensures forall p, q | InBounds(p, q) && (t.xb == -1 || (p, q) != (t.xb, t.yb)) :: r[p][q] == m[p][q]
  {
    if t.xb != -1 then Set(m, t.xb, t.yb, 0) else m
  }

  /** The second step: a man about to land on its far row is made a king on its start. */
  function PromoteStart(m: Matrix, t: Move): (r: Matrix)
    requires MoveInBounds(t)
    ensures r[t.x][t.y] == Promote(m[t.x][t.y], t.x2)
    ensures forall p, q | InBounds(p, q) && (p, q) != (t.x, t.y) :: r[p][q] == m[p][q]
  {
    if (m[t.x][t.y] == 1 && t.x2 == 0) || (m[t.x][t.y] == 2 && t.x2 == 7)
    then Set(m, t.x, t.y, m[t.x][t.y] + 2) else m
  }

  /** The last step: the piece is copied to the destination and its start cleared. */
  function Relocate(m: Matrix, t: Move): (r: Matrix)
    requires MoveInBounds(t)
    ensures r[t.x][t.y] == 0
    ensures (t.x, t.y) != (t.x2, t.y2) ==> r[t.x2][t.y2] == m[t.x][t.y]
    ensures forall p, q | InBounds(p, q) && (p, q) != (t.x, t.y) && (p, q) != (t.x2, t.y2) :: r[p][q] == m[p][q]
  {
    Set(Set(m, t.x2, t.y2, m[t.x][t.y]), t.x, t.y, 0)
  }

  /** The board after move t: the captured piece is removed, the piece is promoted if it
      lands on its far row, it is moved to the destination and the start is cleared. */
  function MakeTurn(m: Matrix, t: Move): (r: Matrix)
    requires MoveInBounds(t)
    ensures r[t.x][t.y] == 0
    ensures t.xb != -1 && (t.xb, t.yb) != (t.x2, t.y2) ==> r[t.xb][t.yb] == 0
    ensures (t.x, t.y) != (t.x2, t.y2) && (t.xb == -1 || (t.xb, t.yb) != (t.x, t.y))
            ==> r[t.x2][t.y2] == Promote(m[t.x][t.y], t.x2)
    ensures forall p, q | InBounds(p, q) && !Touches(t, p, q) :: r[p][q] == m[p][q]
  {
    Relocate(PromoteStart(RemoveCaptured(m, t), t), t)
  }

  /** The three squares of a capture are distinct; a plain move has distinct endpoints. */
  predicate Distinct(t: Move) {
    (t.x, t.y) != (t.x2, t.y2)
    && (t.xb != -1 ==> (t.xb, t.yb) != (t.x, t.y) && (t.xb, t.yb) != (t.x2, t.y2))
  }

  /** A capture of an occupied square by an occupied piece onto an empty square removes
      exactly one piece from the board; a plain move keeps the number of pieces. */
  lemma MakeTurnPieces(m: Matrix, t: Move)
    requires MoveInBounds(t) && Distinct(t)
    requires m[t.x][t.y] != 0 && m[t.x2][t.y2] == 0
    requires t.xb != -1 ==> m[t.xb][t.yb] != 0
    ensures Pieces(MakeTurn(m, t)) == if t.xb != -1 then Pieces(m) - 1 else Pieces(m)
  {
    var m1 := RemoveCaptured(m, t);
    RemovePieces(m, t);
    PromotePieces(m1, t);
    RelocatePieces(PromoteStart(m1, t), t);
  }

  /** Removing the captured piece removes one piece and leaves the two endpoints. */
  lemma RemovePieces(m: Matrix, t: Move)
    requires MoveInBounds(t) && Distinct(t)
    requires m[t.x][t.y] != 0 && m[t.x2][t.y2] == 0
    requires t.xb != -1 ==> m[t.xb][t.yb] != 0
    ensures var r := RemoveCaptured(m, t);
      && Pieces(r) == (if t.xb != -1 then Pieces(m) - 1 else Pieces(m))
      && r[t.x][t.y] != 0 && r[t.x2][t.y2] == 0
  {
    if t.xb != -1 {
      PiecesSet(m, t.xb, t.yb, 0);
    }
  }

  /** Promotion keeps the number of pieces and the start occupied. */
  lemma PromotePieces(m: Matrix, t: Move)
    requires MoveInBounds(t) && Distinct(t)
    requires m[t.x][t.y] != 0 && m[t.x2][t.y2] == 0
    ensures var r := PromoteStart(m, t);
      Pieces(r) == Pieces(m) && r[t.x][t.y] != 0 && r[t.x2][t.y2] == 0
  {
    var c := m[t.x][t.y];
    if (c == 1 && t.x2 == 0) || (c == 2 && t.x2 == 7) {
      var v: Code := c + 2;
      assert PromoteStart(m, t) == Set(m, t.x, t.y, v);
      PiecesSet(m, t.x, t.y, v);
    } else {
      assert PromoteStart(m, t) == m;
    }
  }

  /** Moving a piece onto an empty square keeps the number of pieces. */
  lemma RelocatePieces(m: Matrix, t: Move)
    requires MoveInBounds(t) && (t.x, t.y) != (t.x2, t.y2)
    requires m[t.x][t.y] != 0 && m[t.x2][t.y2] == 0
    ensures Pieces(Relocate(m, t)) == Pieces(m)
  {
    var m3 := Set(m, t.x2, t.y2, m[t.x][t.y]);
    PiecesSet(m, t.x2, t.y2, m[t.x][t.y]);
    PiecesSet(m3, t.x, t.y, 0);
  }

  // ---------------------------------------------------------------------------
  // calc_score

  /** The promotion potential of the cells p.. holding code c (1 or 2): the number of
      rows a white man has left to row 0 (7 - row), or a black man has covered (row). */
  function Potential(s: seq<Code>, c: Code, p: nat): (r: real)
    requires |s| == 64 && p <= 64
    ensures r >= 0.0
    decreases 64 - p
  {
    if p == 64 then 0.0
    else (if s[p] == c then (if c == 1 then 7 - p / 8 else p / 8) as real else 0.0)
         + Potential(s, c, p + 1)
  }

  /** Material of one colour: men (plus 0.05 per row of potential in NumberAndPotential
      mode) and kings, returned as (men, kings). */
  function Material(m: Matrix, black: bool, potential: bool): (r: (real, real)) {
    var man: Code := if black then 2 else 1;
    var king: Code := if black then 4 else 3;
    var men := CountCode(m, man) as real
               + (if potential then 0.05 * Potential(Flatten(m), man, 0) else 0.0);
    (men, CountCode(m, king) as real)
  }

  /** The score from the opponent's material (w men, wq kings) and the bot's (b, bq):
      INF if the opponent has nothing, 0 if the bot has nothing, otherwise the ratio of
      the bot's strength to the opponent's, a king weighing 4 men (5 in
      NumberAndPotential mode). */
  function Ratio(w: real, wq: real, b: real, bq: real, potential: bool): (r: real)
    requires 0.0 <= w && 0.0 <= wq
  {
    if w + wq == 0.0 then INF
    else if b + bq == 0.0 then 0.0
    else if potential then (b + bq * 5.0) / (w + wq * 5.0)
    else (b + bq * 4.0) / (w + wq * 4.0)
  }

  /** The score of board m for the bot (botIsBlack: the bot plays the even codes). */
  function CalcScore(m: Matrix, botIsBlack: bool, potential: bool): (r: real) {
    var opponent := Material(m, !botIsBlack, potential);
    var bot := Material(m, botIsBlack, potential);
    Ratio(opponent.0, opponent.1, bot.0, bot.1, potential)
  }

  /** Number of pieces of one colour. */
  function SidePieces(m: Matrix, black: bool): (r: nat) {
    if black then CountCode(m, 2) + CountCode(m, 4) else CountCode(m, 1) + CountCode(m, 3)
  }

  lemma PotentialBounds(s: seq<Code>, c: Code, p: nat)
    requires |s| == 64 && p <= 64 && (c == 1 || c == 2)
    ensures Potential(s, c, p) <= 7.0 * (multiset(s[p..])[c] as real)
    decreases 64 - p
  {
    if p < 64 {
      PotentialBounds(s, c, p + 1);
      assert s[p..] == [s[p]] + s[p + 1..];
      var k := multiset(s[p + 1..])[c];
      assert multiset(s[p..])[c] == k + (if s[p] == c then 1 else 0);
      var w: int := if c == 1 then 7 - p / 8 else p / 8;
      assert 0 <= w <= 7;
      assert Potential(s, c, p) == (if s[p] == c then w as real else 0.0) + Potential(s, c, p + 1);
    }
  }

  lemma {:induction false} OccurrencesAtMostLength(s: seq<Code>, c: Code)
    ensures multiset(s)[c] <= |s|
  {
    if s != [] {
      OccurrencesAtMostLength(s[1..], c);
      assert s == [s[0]] + s[1..];
    }
  }

  lemma CountAtMost64(m: Matrix, c: Code)
    ensures CountCode(m, c) <= 64
  {
    OccurrencesAtMostLength(Flatten(m), c);
  }

  /** Men of one colour weigh between their number and 1.35 times it; the material of a
      colour is zero exactly when it has no pieces. */
  lemma MaterialBounds(m: Matrix, black: bool, potential: bool)
    ensures var (men, kings) := Material(m, black, potential);
      var cm := CountCode(m, if black then 2 else 1) as real;
      && cm <= men <= 1.35 * cm && cm <= 64.0
      && kings == CountCode(m, if black then 4 else 3) as real && kings <= 64.0
      && (men + kings == 0.0 <==> SidePieces(m, black) == 0)
  {
    var s := Flatten(m);
    assert s[0..] == s;
    PotentialBounds(s, if black then 2 else 1, 0);
    CountAtMost64(m, if black then 2 else 1);
    CountAtMost64(m, if black then 4 else 3);
  }

  lemma DivisionBounds(a: real, d: real)
    requires 0.0 < a && 1.0 <= d
    ensures 0.0 < a / d <= a
  {
  }

  lemma RatioBounds(w: real, wq: real, b: real, bq: real, potential: bool)
    requires 0.0 <= w <= 86.4 && 0.0 <= wq <= 64.0 && 0.0 <= b <= 86.4 && 0.0 <= bq <= 64.0
    requires w + wq != 0.0 ==> w >= 1.0 || wq >= 1.0
    requires b + bq != 0.0 ==> b >= 1.0 || bq >= 1.0
    requires w + wq != 0.0 && b + bq != 0.0
    ensures 0.0 < Ratio(w, wq, b, bq, potential) < INF
  {
    if potential {
      DivisionBounds(b + bq * 5.0, w + wq * 5.0);
    } else {
      DivisionBounds(b + bq * 4.0, w + wq * 4.0);
    }
  }

  /** The evaluator's sentinels: INF exactly when the opponent has no pieces (checked
      first), 0 when only the bot has none, and a value strictly between otherwise. */
  lemma CalcScoreSentinels(m: Matrix, botIsBlack: bool, potential: bool)
    ensures SidePieces(m, !botIsBlack) == 0 ==> CalcScore(m, botIsBlack, potential) == INF
    ensures SidePieces(m, !botIsBlack) != 0 && SidePieces(m, botIsBlack) == 0
            ==> CalcScore(m, botIsBlack, potential) == 0.0
    ensures SidePieces(m, !botIsBlack) != 0 && SidePieces(m, botIsBlack) != 0
            ==> 0.0 < CalcScore(m, botIsBlack, potential) < INF
  {
    var (w, wq) := Material(m, !botIsBlack, potential);
    var (b, bq) := Material(m, botIsBlack, potential);
    MaterialBounds(m, !botIsBlack, potential);
    MaterialBounds(m, botIsBlack, potential);
    if w + wq != 0.0 && b + bq != 0.0 {
      RatioBounds(w, wq, b, bq, potential);
    }
  }

  /** A side's strength in counting mode: its men plus four per king. */
  function Weighted(m: Matrix, black: bool): real {
    CountCode(m, if black then 2 else 1) as real + CountCode(m, if black then 4 else 3) as real * 4.0
  }

  /** Counting mode: when both sides have pieces, the score is the bot's strength over
      the opponent's. */
  lemma CalcScoreCounts(m: Matrix, botIsBlack: bool)
    requires SidePieces(m, !botIsBlack) != 0 && SidePieces(m, botIsBlack) != 0
    ensures CalcScore(m, botIsBlack, false) == Weighted(m, botIsBlack) / Weighted(m, !botIsBlack)
  {
    var opponent, bot := Material(m, !botIsBlack, false), Material(m, botIsBlack, false);
    CountingMaterial(m, !botIsBlack);
    CountingMaterial(m, botIsBlack);
    CountingRatio(opponent, bot, CalcScore(m, botIsBlack, false), Weighted(m, !botIsBlack), Weighted(m, botIsBlack));
  }

  /** In counting mode a side's material is its number of men and of kings, and it is
      zero exactly when the side has no pieces. */
  lemma CountingMaterial(m: Matrix, black: bool)
    ensures Material(m, black, false)
         == (CountCode(m, if black then 2 else 1) as real, CountCode(m, if black then 4 else 3) as real)
    ensures Material(m, black, false).0 + Material(m, black, false).1 == SidePieces(m, black) as real
  {
  }

  /** The counting-mode ratio, a king weighing four men. */
  lemma CountingRatio(opponent: (real, real), bot: (real, real), score: real, wo: real, wb: real)
    requires opponent.0 >= 0.0 && opponent.1 >= 0.0
    requires opponent.0 + opponent.1 != 0.0 && bot.0 + bot.1 != 0.0
    requires score == Ratio(opponent.0, opponent.1, bot.0, bot.1, false)
    requires wo == opponent.0 + opponent.1 * 4.0 && wb == bot.0 + bot.1 * 4.0
    ensures score == wb / wo
  {
  }
}
