/** The moves of one side (Logic::find_turns(color, mtx)): the squares are scanned in
    row-major order; once a capture has been seen, only captures are collected. */
module SideGen {
  import opened Moves
  import opened Cells
  import opened MoveGen

  /** The square holds a piece of the side to move: color false is white (odd codes),
      true is black (even codes). */
  predicate Own(m: Matrix, color: bool, i: int, j: int)
    requires InBounds(i, j)
  {
    m[i][j] != 0 && m[i][j] % 2 != (if color then 1 else 0)
  }

  /** Own, Captures and Simples on the square numbered p = 8 * i + j. */
  predicate OwnSq(m: Matrix, color: bool, p: nat)
    requires p < 64
  {
    Own(m, color, p / 8, p % 8)
  }

  function CapturesSq(m: Matrix, p: nat): seq<Move>
    requires p < 64
  {
    Captures(m, p / 8, p % 8)
  }

  function SimplesSq(m: Matrix, p: nat): seq<Move>
    requires p < 64
  {
    Simples(m, p / 8, p % 8)
  }

  /** One square's contribution: a first capture clears the list (res1), and the
      square's moves are appended unless they are plain moves after a capture. */
  function Collect(res: seq<Move>, before: bool, ts: seq<Move>, hb: bool): (seq<Move>, bool) {
    var res1 := if hb && !before then [] else res;
    var before1 := before || hb;
    var res2 := if (before1 && hb) || !before1 then res1 + ts else res1;
    (res2, before1)
  }

  /** What the square p = 8 * i + j adds to the list res and the flag
      have_beats_before: nothing unless it holds a piece of the side to move. */
  function SquareStep(m: Matrix, color: bool, p: nat, res: seq<Move>, before: bool): (seq<Move>, bool)
    requires p < 64
  {
    if Own(m, color, p / 8, p % 8) then
      var sq := SquareMoves(m, p / 8, p % 8);
      Collect(res, before, sq.0, sq.1)
    else (res, before)
  }

  /** The scan from square p on, with the list res and the flag have_beats_before
      collected so far. */
  function SideScan(m: Matrix, color: bool, p: nat, res: seq<Move>, before: bool): (seq<Move>, bool)
    requires p <= 64
    decreases 64 - p
  {
    if p == 64 then (res, before)
    else
      var next := SquareStep(m, color, p, res, before);
      SideScan(m, color, p + 1, next.0, next.1)
  }

  /** The list and the flag of find_turns(color, mtx) before the shuffle. */
  function SideMoves(m: Matrix, color: bool): (seq<Move>, bool) {
    SideScan(m, color, 0, [], false)
  }

  // ---------------------------------------------------------------------------
  // The same collection stated without the running flag.

  /** The captures of the side's pieces on squares p.. in row-major order. */
  function AllCaptures(m: Matrix, color: bool, p: nat): seq<Move>
    requires p <= 64
    decreases 64 - p
  {
    if p == 64 then []
    else if OwnSq(m, color, p) then CapturesSq(m, p) + AllCaptures(m, color, p + 1)
    else AllCaptures(m, color, p + 1)
  }

  /** The plain moves of the side's pieces on squares p.. in row-major order. */
  function AllSimples(m: Matrix, color: bool, p: nat): seq<Move>
    requires p <= 64
    decreases 64 - p
  {
    if p == 64 then []
    else if OwnSq(m, color, p) then SimplesSq(m, p) + AllSimples(m, color, p + 1)
    else AllSimples(m, color, p + 1)
  }

  /** The outcome of mandatory capture, given the captures and the plain moves still to
      come: the captures if there are any (after res when one was already seen),
      otherwise the plain moves after res. */
  function Pick(res: seq<Move>, before: bool, caps: seq<Move>, plain: seq<Move>): (seq<Move>, bool) {
    if before then (res + caps, true)
    else if |caps| > 0 then (caps, true)
    else (res + plain, false)
  }

  /** The scan's result stated without the running flag. */
  function Collected(m: Matrix, color: bool, p: nat, res: seq<Move>, before: bool): (seq<Move>, bool)
    requires p <= 64
  {
    Pick(res, before, AllCaptures(m, color, p), AllSimples(m, color, p))
  }

  lemma PickCapture(res: seq<Move>, before: bool, here: seq<Move>, caps: seq<Move>, plain: seq<Move>, plain2: seq<Move>)
    requires |here| > 0
    ensures Pick(res, before, here + caps, plain2) == Pick(if before then res + here else here, true, caps, plain)
  {
    assert (res + here) + caps == res + (here + caps);
  }

  lemma PickPlain(res: seq<Move>, before: bool, here: seq<Move>, caps: seq<Move>, plain: seq<Move>)
    ensures Pick(res, before, [] + caps, here + plain) == Pick(if before then res else res + here, before, caps, plain)
  {
    assert [] + caps == caps;
    assert (res + here) + plain == res + (here + plain);
  }

  /** Collected over a square without a piece of the side to move. */
  lemma CollectedSkip(m: Matrix, color: bool, p: nat, res: seq<Move>, before: bool)
    requires p < 64 && !OwnSq(m, color, p)
    ensures Collected(m, color, p, res, before) == Collected(m, color, p + 1, res, before)
  {
  }

  /** Collected over a square whose piece can capture. */
  lemma CollectedCapture(m: Matrix, color: bool, p: nat, res: seq<Move>, before: bool, res1: seq<Move>)
    requires p < 64 && OwnSq(m, color, p) && |CapturesSq(m, p)| > 0
    requires res1 == if before then res + CapturesSq(m, p) else CapturesSq(m, p)
    ensures Collected(m, color, p, res, before) == Collected(m, color, p + 1, res1, true)
  {
    PickCapture(res, before, CapturesSq(m, p), AllCaptures(m, color, p + 1),
                AllSimples(m, color, p + 1), AllSimples(m, color, p));
  }

  /** Collected over a square whose piece cannot capture. */
  lemma CollectedPlain(m: Matrix, color: bool, p: nat, res: seq<Move>, before: bool, res1: seq<Move>)
    requires p < 64 && OwnSq(m, color, p) && |CapturesSq(m, p)| == 0
    requires res1 == if before then res else res + SimplesSq(m, p)
    ensures Collected(m, color, p, res, before) == Collected(m, color, p + 1, res1, before)
  {
    assert CapturesSq(m, p) == [];
    PickPlain(res, before, SimplesSq(m, p), AllCaptures(m, color, p + 1), AllSimples(m, color, p + 1));
  }

  /** A square's step of the scan, stated by cases on the square's moves. */
  lemma SquareStepCases(m: Matrix, color: bool, p: nat, res: seq<Move>, before: bool)
    requires p < 64
    ensures !OwnSq(m, color, p) ==> SquareStep(m, color, p, res, before) == (res, before)
    ensures OwnSq(m, color, p) && |CapturesSq(m, p)| > 0 ==>
      SquareStep(m, color, p, res, before)
      == (if before then res + CapturesSq(m, p) else CapturesSq(m, p), true)
    ensures OwnSq(m, color, p) && |CapturesSq(m, p)| == 0 ==>
      SquareStep(m, color, p, res, before) == (if before then res else res + SimplesSq(m, p), before)
  {
    Unit(CapturesSq(m, p));
  }

  /** One step of the scan keeps Collected. */
  lemma CollectedStep(m: Matrix, color: bool, p: nat, res: seq<Move>, before: bool)
    requires p < 64
    ensures var next := SquareStep(m, color, p, res, before);
      Collected(m, color, p, res, before) == Collected(m, color, p + 1, next.0, next.1)
  {
    SquareStepCases(m, color, p, res, before);
    var next := SquareStep(m, color, p, res, before);
    if !OwnSq(m, color, p) {
      CollectedSkip(m, color, p, res, before);
    } else if |CapturesSq(m, p)| > 0 {
      CollectedCapture(m, color, p, res, before, next.0);
    } else {
      CollectedPlain(m, color, p, res, before, next.0);
    }
  }

  /** The running flag changes the scan only by the rule of mandatory capture: once a
      capture is seen, the list restarts and only captures follow. */
  lemma {:induction false} SideScanCollects(m: Matrix, color: bool, p: nat, res: seq<Move>, before: bool)
    requires p <= 64
    ensures SideScan(m, color, p, res, before) == Collected(m, color, p, res, before)
    decreases 64 - p
  {
    if p == 64 {
      Unit(res);
    } else {
      var next := SquareStep(m, color, p, res, before);
      CollectedStep(m, color, p, res, before);
      SideScanCollects(m, color, p + 1, next.0, next.1);
    }
  }

  /** The side's capture list holds exactly the captures of its own pieces on the
      squares p.. . */
  lemma {:induction false} AllCapturesMember(m: Matrix, color: bool, p: nat, mv: Move)
    requires p <= 64
    ensures mv in AllCaptures(m, color, p)
        <==> p <= 8 * mv.x + mv.y && InBounds(mv.x, mv.y) && Own(m, color, mv.x, mv.y)
             && IsCaptureRule(m, mv.x, mv.y, mv)
    decreases 64 - p
  {
    if p < 64 {
      var i, j := p / 8, p % 8;
      AllCapturesMember(m, color, p + 1, mv);
      CapturesExact(m, i, j);
      assert (8 * mv.x + mv.y == p && InBounds(mv.x, mv.y)) <==> (mv.x == i && mv.y == j);
    }
  }

  /** The side's plain-move list holds exactly the plain moves of its own pieces on the
      squares p.. . */
  lemma {:induction false} AllSimplesMember(m: Matrix, color: bool, p: nat, mv: Move)
    requires p <= 64
    ensures mv in AllSimples(m, color, p)
        <==> p <= 8 * mv.x + mv.y && InBounds(mv.x, mv.y) && Own(m, color, mv.x, mv.y)
             && IsSimpleRule(m, mv.x, mv.y, mv)
    decreases 64 - p
  {
    if p < 64 {
      var i, j := p / 8, p % 8;
      AllSimplesMember(m, color, p + 1, mv);
      SimplesExact(m, i, j);
      assert (8 * mv.x + mv.y == p && InBounds(mv.x, mv.y)) <==> (mv.x == i && mv.y == j);
    }
  }

  /** mv is a capture, by the rules, of a piece of the side to move. */
  predicate SideCapture(m: Matrix, color: bool, mv: Move) {
    InBounds(mv.x, mv.y) && Own(m, color, mv.x, mv.y) && IsCaptureRule(m, mv.x, mv.y, mv)
  }

  /** mv is a plain move, by the rules, of a piece of the side to move. */
  predicate SideSimple(m: Matrix, color: bool, mv: Move) {
    InBounds(mv.x, mv.y) && Own(m, color, mv.x, mv.y) && IsSimpleRule(m, mv.x, mv.y, mv)
  }

  /** The scan from the first square yields the side's captures if it has any, and
      otherwise its plain moves. */
  lemma SideMovesPick(m: Matrix, color: bool)
    ensures SideMoves(m, color)
         == if |AllCaptures(m, color, 0)| > 0 then (AllCaptures(m, color, 0), true)
            else (AllSimples(m, color, 0), false)
  {
    SideScanCollects(m, color, 0, [], false);
    Unit(AllSimples(m, color, 0));
  }

  /** Membership in the side's two lists, by the rules. */
  lemma SideListsExact(m: Matrix, color: bool, mv: Move)
    ensures mv in AllCaptures(m, color, 0) <==> SideCapture(m, color, mv)
    ensures mv in AllSimples(m, color, 0) <==> SideSimple(m, color, mv)
    ensures SideCapture(m, color, mv) ==> IsCapture(mv) && Playable(m, mv)
    ensures SideSimple(m, color, mv) ==> !IsCapture(mv) && Playable(m, mv)
  {
    AllCapturesMember(m, color, 0, mv);
    AllSimplesMember(m, color, 0, mv);
    if InBounds(mv.x, mv.y) && m[mv.x][mv.y] != 0 {
      CaptureRulePlayable(m, mv.x, mv.y, mv);
      SimpleRulePlayable(m, mv.x, mv.y, mv);
    }
  }

  /** find_turns(color, mtx) applies mandatory capture over the whole side: the flag is
      set exactly when some piece can capture; the list is then exactly the side's
      captures, and otherwise exactly its plain moves; every listed move is playable. */
  lemma SideMovesRules(m: Matrix, color: bool)
    ensures var (ts, hb) := SideMoves(m, color);
      && (hb <==> exists mv :: SideCapture(m, color, mv))
      && (hb ==> forall mv :: mv in ts <==> SideCapture(m, color, mv))
      && (!hb ==> forall mv :: mv in ts <==> SideSimple(m, color, mv))
      && forall mv | mv in ts :: Own(m, color, mv.x, mv.y) && IsCapture(mv) == hb && Playable(m, mv)
  {
    SideMovesPick(m, color);
    var caps := AllCaptures(m, color, 0);
    forall mv
      ensures mv in caps <==> SideCapture(m, color, mv)
      ensures mv in AllSimples(m, color, 0) <==> SideSimple(m, color, mv)
      ensures SideCapture(m, color, mv) ==> IsCapture(mv) && Playable(m, mv)
      ensures SideSimple(m, color, mv) ==> !IsCapture(mv) && Playable(m, mv)
    {
      SideListsExact(m, color, mv);
    }
    if |caps| > 0 {
      assert SideCapture(m, color, caps[0]);
    }
  }
}
