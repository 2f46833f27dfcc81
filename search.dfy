/** The bot's search (Logic::find_best_turns_rec, Logic::find_first_best_turn and the
    reconstruction in Logic::find_best_turns), as functions of the board, the
    configuration and the generator state. The generator state is what the C++ class
    keeps in its fields turns, have_beats and rand_eng; every find_turns call inside
    the search overwrites it, so it is threaded through the recursion. */
module Search {
  import opened Moves
  import opened Cells
  import opened Evaluation
  import opened MoveGen
  import opened SideGen

  /** std::shuffle over the random engine's state: any function that permutes its list
      and returns the engine's next state. */
  type Shuffler = f: (seq<Move>, nat) -> (seq<Move>, nat)
    | forall s: seq<Move>, r: nat :: multiset(f(s, r).0) == multiset(s)
    witness (s: seq<Move>, r: nat) => (s, r)

  /** The configuration the search reads: Max_depth, the scoring mode
      (potential: "NumberAndPotential") and whether Optimization is not "O0". */
  datatype Params = Params(maxDepth: nat, potential: bool, pruning: bool, shuffle: Shuffler)

  /** The fields turns and have_beats and the state of rand_eng. */
  datatype Gen = Gen(turns: seq<Move>, haveBeats: bool, rng: nat)

  /** Every move of ts can be played on m and is a capture exactly when hb is set. */
  predicate MovesOk(m: Matrix, ts: seq<Move>, hb: bool) {
    forall t | t in ts :: Playable(m, t) && IsCapture(t) == hb
  }

  /** find_turns(x, y, mtx) on the generator state. */
  function SquareTurns(m: Matrix, x: int, y: int, g: Gen): (r: Gen)
    requires InBounds(x, y) && m[x][y] != 0
    ensures MovesOk(m, r.turns, r.haveBeats)
  {
    SquareMovesRules(m, x, y);
    Gen(SquareMoves(m, x, y).0, SquareMoves(m, x, y).1, g.rng)
  }

  /** The square's moves all start on it; the captures flag is set exactly when the
      piece can capture, and then there is at least one move; the engine is untouched. */
  lemma SquareTurnsRules(m: Matrix, x: int, y: int, g: Gen)
    requires InBounds(x, y) && m[x][y] != 0
    ensures var r := SquareTurns(m, x, y, g);
      && r.rng == g.rng
      && (forall t | t in r.turns :: t.x == x && t.y == y)
      && (r.haveBeats <==> exists mv :: IsCaptureRule(m, x, y, mv))
      && (r.haveBeats ==> |r.turns| > 0)
  {
    SquareMovesRules(m, x, y);
  }

  /** find_turns(color, mtx) on the generator state: the side's moves, shuffled. */
  function SideTurns(sh: Shuffler, m: Matrix, color: bool, g: Gen): (r: Gen)
    ensures MovesOk(m, r.turns, r.haveBeats)
  {
    SideMovesRules(m, color);
    var (ts, hb) := SideMoves(m, color);
    var (s, rng) := sh(ts, g.rng);
    assert forall t | t in s :: t in multiset(ts);
    Gen(s, hb, rng)
  }

  /** The side's list, shuffled: a permutation of the row-major collection, with its
      captures flag. */
  lemma SideTurnsPermutes(sh: Shuffler, m: Matrix, color: bool, g: Gen)
    ensures multiset(SideTurns(sh, m, color, g).turns) == multiset(SideMoves(m, color).0)
    ensures SideTurns(sh, m, color, g).haveBeats == SideMoves(m, color).1
  {
  }

  /** The moves the search considers at a node: those of the square (x, y) while a
      capture chain goes on, otherwise those of the whole side. */
  function Turns(p: Params, m: Matrix, color: bool, x: int, y: int, g: Gen): (r: Gen)
    requires x != -1 ==> InBounds(x, y) && m[x][y] != 0
    ensures MovesOk(m, r.turns, r.haveBeats)
  {
    if x != -1 then SquareTurns(m, x, y, g) else SideTurns(p.shuffle, m, color, g)
  }

  function Min(a: real, b: real): real { if b < a then b else a }

  function Max(a: real, b: real): real { if a < b then b else a }

  /** A capture removes a piece, and the capturing piece stands on its landing square. */
  lemma CaptureShrinks(m: Matrix, t: Move)
    requires Playable(m, t) && IsCapture(t)
    ensures Pieces(MakeTurn(m, t)) < Pieces(m)
    ensures MakeTurn(m, t)[t.x2][t.y2] != 0
  {
    MakeTurnPieces(m, t);
  }

  // ---------------------------------------------------------------------------
  // find_best_turns_rec

  /** The score of board m with color to move at depth; (x, y) is the square of a
      capture chain in progress, or x == -1. */
  function Rec(p: Params, m: Matrix, color: bool, depth: nat, alpha: real, beta: real,
               x: int, y: int, g: Gen): (real, Gen)
    requires depth <= p.maxDepth
    requires x != -1 ==> InBounds(x, y) && m[x][y] != 0
    decreases p.maxDepth - depth, Pieces(m), 1, 0
  {
    if depth == p.maxDepth then (CalcScore(m, (depth % 2 == 1) == color, p.potential), g)
    else
      var g1 := Turns(p, m, color, x, y, g);
      if !g1.haveBeats && x != -1 then Rec(p, m, !color, depth + 1, alpha, beta, -1, -1, g1)
      else if |g1.turns| == 0 then (if depth % 2 == 1 then 0.0 else INF, g1)
      else RecLoop(p, m, color, depth, alpha, beta, x, g1.turns, g1.haveBeats, 0, INF + 1.0, -1.0, g1)
  }

  /** The loop over the moves ts[i..], with the running minimum and maximum. */
  function RecLoop(p: Params, m: Matrix, color: bool, depth: nat, alpha: real, beta: real,
                   x: int, ts: seq<Move>, hb: bool, i: nat, minS: real, maxS: real, g: Gen): (real, Gen)
    requires depth < p.maxDepth && i <= |ts|
    requires MovesOk(m, ts, hb) && (x != -1 ==> hb)
    decreases p.maxDepth - depth, Pieces(m), 0, |ts| - i
  {
    if i == |ts| then (if depth % 2 == 1 then maxS else minS, g)
    else
      assert ts[i] in ts;
      var (score, g2) := RecChild(p, m, color, depth, alpha, beta, x, ts[i], hb, g);
      var minS1, maxS1 := Min(minS, score), Max(maxS, score);
      var alpha1 := if depth % 2 == 1 then Max(alpha, maxS1) else alpha;
      var beta1 := if depth % 2 == 1 then beta else Min(beta, minS1);
      if p.pruning && alpha1 >= beta1 then (if depth % 2 == 1 then maxS1 + 1.0 else minS1 - 1.0, g2)
      else RecLoop(p, m, color, depth, alpha1, beta1, x, ts, hb, i + 1, minS1, maxS1, g2)
  }

  /** The score of the child reached by move t: the opponent's ply one level deeper
      after a plain move, the continuation of the chain from t's landing square after a
      capture. */
  function RecChild(p: Params, m: Matrix, color: bool, depth: nat, alpha: real, beta: real,
                    x: int, t: Move, hb: bool, g: Gen): (real, Gen)
    requires depth < p.maxDepth
    requires Playable(m, t) && IsCapture(t) == hb && (x != -1 ==> hb)
    decreases p.maxDepth - depth, Pieces(m), 0, 0
  {
    if !hb && x == -1 then Rec(p, MakeTurn(m, t), !color, depth + 1, alpha, beta, -1, -1, g)
    else
      CaptureShrinks(m, t);
      Rec(p, MakeTurn(m, t), color, depth, alpha, beta, t.x2, t.y2, g)
  }

  // ---------------------------------------------------------------------------
  // The reference: plain minimax, without the alpha-beta window.

  /** The largest element. */
  function SeqMax(s: seq<real>): (r: real)
    requires |s| > 0
    ensures r in s && forall e | e in s :: e <= r
  {
    if |s| == 1 then s[0]
    else
      var r := SeqMax(s[1..]);
      assert forall e | e in s :: e == s[0] || e in s[1..];
      Max(s[0], r)
  }

  /** The smallest element. */
  function SeqMin(s: seq<real>): (r: real)
    requires |s| > 0
    ensures r in s && forall e | e in s :: r <= e
  {
    if |s| == 1 then s[0]
    else
      var r := SeqMin(s[1..]);
      assert forall e | e in s :: e == s[0] || e in s[1..];
      Min(s[0], r)
  }

  /** Minimax over the same tree: the evaluator at Max_depth, 0 or INF when the side to
      move is stuck, otherwise the largest child score at odd depth (the bot's ply) and
      the smallest at even depth; every value lies between 0 and INF. */
  function Minimax(p: Params, m: Matrix, color: bool, depth: nat, x: int, y: int, g: Gen): (r: (real, Gen))
    requires depth <= p.maxDepth
    requires x != -1 ==> InBounds(x, y) && m[x][y] != 0
    ensures 0.0 <= r.0 <= INF
    decreases p.maxDepth - depth, Pieces(m), 1, 0
  {
    if depth == p.maxDepth then
      CalcScoreSentinels(m, (depth % 2 == 1) == color, p.potential);
      (CalcScore(m, (depth % 2 == 1) == color, p.potential), g)
    else
      var g1 := Turns(p, m, color, x, y, g);
      if !g1.haveBeats && x != -1 then Minimax(p, m, !color, depth + 1, -1, -1, g1)
      else if |g1.turns| == 0 then (if depth % 2 == 1 then 0.0 else INF, g1)
      else
        var (cs, g2) := Children(p, m, color, depth, x, g1.turns, g1.haveBeats, 0, g1);
        (if depth % 2 == 1 then SeqMax(cs) else SeqMin(cs), g2)
  }

  /** The minimax scores of the children reached by ts[i..], in order. */
  function Children(p: Params, m: Matrix, color: bool, depth: nat, x: int, ts: seq<Move>,
                    hb: bool, i: nat, g: Gen): (r: (seq<real>, Gen))
    requires depth < p.maxDepth && i <= |ts|
    requires MovesOk(m, ts, hb) && (x != -1 ==> hb)
    ensures |r.0| == |ts| - i
    ensures forall e | e in r.0 :: 0.0 <= e <= INF
    decreases p.maxDepth - depth, Pieces(m), 0, |ts| - i
  {
    if i == |ts| then ([], g)
    else
      assert ts[i] in ts;
      var (score, g2) := MinimaxChild(p, m, color, depth, x, ts[i], hb, g);
      var (rest, g3) := Children(p, m, color, depth, x, ts, hb, i + 1, g2);
      ([score] + rest, g3)
  }

  /** The minimax score of the child reached by move t. */
  function MinimaxChild(p: Params, m: Matrix, color: bool, depth: nat, x: int, t: Move,
                        hb: bool, g: Gen): (r: (real, Gen))
    requires depth < p.maxDepth
    requires Playable(m, t) && IsCapture(t) == hb && (x != -1 ==> hb)
    ensures 0.0 <= r.0 <= INF
    decreases p.maxDepth - depth, Pieces(m), 0, 0
  {
    if !hb && x == -1 then Minimax(p, MakeTurn(m, t), !color, depth + 1, -1, -1, g)
    else
      CaptureShrinks(m, t);
      Minimax(p, MakeTurn(m, t), color, depth, t.x2, t.y2, g)
  }

  /** The value the loop returns after the running extremes minS and maxS meet the
      scores cs still to come. */
  function Extreme(odd: bool, minS: real, maxS: real, cs: seq<real>): real {
    if odd then (if cs == [] then maxS else Max(maxS, SeqMax(cs)))
    else (if cs == [] then minS else Min(minS, SeqMin(cs)))
  }

  lemma ExtremeCons(odd: bool, minS: real, maxS: real, s: real, rest: seq<real>)
    ensures Extreme(odd, minS, maxS, [s] + rest) == Extreme(odd, Min(minS, s), Max(maxS, s), rest)
  {
    if rest != [] {
      assert ([s] + rest)[1..] == rest;
    }
  }

  /** From the loop's initial extremes INF + 1 and -1, scores between 0 and INF give
      their own maximum and minimum. */
  lemma ExtremeStart(odd: bool, cs: seq<real>)
    requires cs != [] && forall e | e in cs :: 0.0 <= e <= INF
    ensures Extreme(odd, INF + 1.0, -1.0, cs) == if odd then SeqMax(cs) else SeqMin(cs)
  {
    assert SeqMax(cs) in cs && SeqMin(cs) in cs;
  }

  /** Without pruning ("O0") the alpha-beta search computes exactly the minimax value,
      whatever window it is given, and leaves the generator in the same state. */
  lemma {:induction false} RecIsMinimax(p: Params, m: Matrix, color: bool, depth: nat,
                                        alpha: real, beta: real, x: int, y: int, g: Gen)
    requires !p.pruning && depth <= p.maxDepth
    requires x != -1 ==> InBounds(x, y) && m[x][y] != 0
    ensures Rec(p, m, color, depth, alpha, beta, x, y, g) == Minimax(p, m, color, depth, x, y, g)
    decreases p.maxDepth - depth, Pieces(m), 1, 0
  {
    if depth < p.maxDepth {
      var g1 := Turns(p, m, color, x, y, g);
      if !g1.haveBeats && x != -1 {
        RecIsMinimax(p, m, !color, depth + 1, alpha, beta, -1, -1, g1);
      } else if |g1.turns| > 0 {
        RecLoopIsChildren(p, m, color, depth, alpha, beta, x, g1.turns, g1.haveBeats, 0, INF + 1.0, -1.0, g1);
        ExtremeStart(depth % 2 == 1, Children(p, m, color, depth, x, g1.turns, g1.haveBeats, 0, g1).0);
      }
    }
  }

  /** A child's score does not depend on the window without pruning. */
  lemma {:induction false} RecChildIsMinimax(p: Params, m: Matrix, color: bool, depth: nat,
                                             alpha: real, beta: real, x: int, t: Move, hb: bool, g: Gen)
    requires !p.pruning && depth < p.maxDepth
    requires Playable(m, t) && IsCapture(t) == hb && (x != -1 ==> hb)
    ensures RecChild(p, m, color, depth, alpha, beta, x, t, hb, g)
         == MinimaxChild(p, m, color, depth, x, t, hb, g)
    decreases p.maxDepth - depth, Pieces(m), 0, 0
  {
    if !hb && x == -1 {
      RecIsMinimax(p, MakeTurn(m, t), !color, depth + 1, alpha, beta, -1, -1, g);
    } else {
      CaptureShrinks(m, t);
      RecIsMinimax(p, MakeTurn(m, t), color, depth, alpha, beta, t.x2, t.y2, g);
    }
  }

  /** One iteration of the loop without pruning. */
  lemma RecLoopStep(p: Params, m: Matrix, color: bool, depth: nat, alpha: real, beta: real,
                    x: int, ts: seq<Move>, hb: bool, i: nat, minS: real, maxS: real, g: Gen)
    requires !p.pruning && depth < p.maxDepth && i < |ts|
    requires MovesOk(m, ts, hb) && (x != -1 ==> hb)
    ensures ts[i] in ts
    ensures var (score, g2) := RecChild(p, m, color, depth, alpha, beta, x, ts[i], hb, g);
      var minS1, maxS1 := Min(minS, score), Max(maxS, score);
      RecLoop(p, m, color, depth, alpha, beta, x, ts, hb, i, minS, maxS, g)
      == RecLoop(p, m, color, depth, if depth % 2 == 1 then Max(alpha, maxS1) else alpha,
                 if depth % 2 == 1 then beta else Min(beta, minS1), x, ts, hb, i + 1, minS1, maxS1, g2)
  {
  }

  /** One step of the children's list. */
  lemma ChildrenStep(p: Params, m: Matrix, color: bool, depth: nat, x: int, ts: seq<Move>,
                     hb: bool, i: nat, g: Gen)
    requires depth < p.maxDepth && i < |ts|
    requires MovesOk(m, ts, hb) && (x != -1 ==> hb)
    ensures ts[i] in ts
    ensures var (score, g2) := MinimaxChild(p, m, color, depth, x, ts[i], hb, g);
      var (rest, g3) := Children(p, m, color, depth, x, ts, hb, i + 1, g2);
      Children(p, m, color, depth, x, ts, hb, i, g) == ([score] + rest, g3)
  {
  }

  /** The window the loop passes on after a child scored score. */
  function NextAlpha(depth: nat, alpha: real, maxS: real, score: real): real {
    if depth % 2 == 1 then Max(alpha, Max(maxS, score)) else alpha
  }

  function NextBeta(depth: nat, beta: real, minS: real, score: real): real {
    if depth % 2 == 1 then beta else Min(beta, Min(minS, score))
  }

  /** The induction step of RecLoopIsChildren, from the claim for i + 1 to the claim
      for i. */
  lemma LoopCombine(p: Params, m: Matrix, color: bool, depth: nat, alpha: real, beta: real,
                    x: int, ts: seq<Move>, hb: bool, i: nat, minS: real, maxS: real, g: Gen)
    requires !p.pruning && depth < p.maxDepth && i < |ts|
    requires MovesOk(m, ts, hb) && (x != -1 ==> hb)
    requires ts[i] in ts
    requires var c := MinimaxChild(p, m, color, depth, x, ts[i], hb, g);
      var rest := Children(p, m, color, depth, x, ts, hb, i + 1, c.1);
      RecLoop(p, m, color, depth, NextAlpha(depth, alpha, maxS, c.0), NextBeta(depth, beta, minS, c.0),
              x, ts, hb, i + 1, Min(minS, c.0), Max(maxS, c.0), c.1)
      == (Extreme(depth % 2 == 1, Min(minS, c.0), Max(maxS, c.0), rest.0), rest.1)
    ensures var cs := Children(p, m, color, depth, x, ts, hb, i, g);
      RecLoop(p, m, color, depth, alpha, beta, x, ts, hb, i, minS, maxS, g)
      == (Extreme(depth % 2 == 1, minS, maxS, cs.0), cs.1)
    decreases p.maxDepth - depth, Pieces(m), 0, |ts| - i, 0
  {
    RecLoopStep(p, m, color, depth, alpha, beta, x, ts, hb, i, minS, maxS, g);
    ChildrenStep(p, m, color, depth, x, ts, hb, i, g);
    RecChildIsMinimax(p, m, color, depth, alpha, beta, x, ts[i], hb, g);
    var c := MinimaxChild(p, m, color, depth, x, ts[i], hb, g);
    ExtremeCons(depth % 2 == 1, minS, maxS, c.0, Children(p, m, color, depth, x, ts, hb, i + 1, c.1).0);
  }

  /** The loop keeps the extremes of the running values and of the children still to
      come. */
  lemma {:induction false} RecLoopIsChildren(p: Params, m: Matrix, color: bool, depth: nat,
                                             alpha: real, beta: real, x: int, ts: seq<Move>, hb: bool,
                                             i: nat, minS: real, maxS: real, g: Gen)
    requires !p.pruning && depth < p.maxDepth && i <= |ts|
    requires MovesOk(m, ts, hb) && (x != -1 ==> hb)
    ensures var cs := Children(p, m, color, depth, x, ts, hb, i, g);
      RecLoop(p, m, color, depth, alpha, beta, x, ts, hb, i, minS, maxS, g)
      == (Extreme(depth % 2 == 1, minS, maxS, cs.0), cs.1)
    decreases p.maxDepth - depth, Pieces(m), 0, |ts| - i, 1
  {
    if i < |ts| {
      assert ts[i] in ts;
      var c := MinimaxChild(p, m, color, depth, x, ts[i], hb, g);
      RecLoopIsChildren(p, m, color, depth, NextAlpha(depth, alpha, maxS, c.0), NextBeta(depth, beta, minS, c.0),
                        x, ts, hb, i + 1, Min(minS, c.0), Max(maxS, c.0), c.1);
      LoopCombine(p, m, color, depth, alpha, beta, x, ts, hb, i, minS, maxS, g);
    }
  }

  /** Without pruning every score of the search lies between 0 and INF. */
  lemma RecRange(p: Params, m: Matrix, color: bool, depth: nat, alpha: real, beta: real,
                 x: int, y: int, g: Gen)
    requires !p.pruning && depth <= p.maxDepth
    requires x != -1 ==> InBounds(x, y) && m[x][y] != 0
    ensures 0.0 <= Rec(p, m, color, depth, alpha, beta, x, y, g).0 <= INF
  {
    RecIsMinimax(p, m, color, depth, alpha, beta, x, y, g);
  }

  // ---------------------------------------------------------------------------
  // find_first_best_turn: the vectors next_move and next_best_state.

  /** next_move and next_best_state: the best move found in each state and the state
      its capture chain continues in (-1 if none). */
  datatype Trace = Trace(moves: seq<Move>, links: seq<int>)

  /** The two vectors of a and b agree on their first n entries. */
  predicate SamePrefix(a: Trace, b: Trace, n: nat) {
    && n <= |a.moves| && n <= |a.links| && n <= |b.moves| && n <= |b.links|
    && forall k | 0 <= k < n :: a.moves[k] == b.moves[k] && a.links[k] == b.links[k]
  }

  /** A continuation of the chain from square (x, y): a capture starting there, or the
      placeholder of a state where no move was chosen. */
  predicate ChainStart(mv: Move, x: int, y: int) {
    mv == Placeholder || (IsCapture(mv) && mv.x == x && mv.y == y)
  }

  /** State k either ends its turn or is a capture whose chain continues in a later
      state, from the square where k's capture lands. */
  predicate LinkOk(tr: Trace, k: int)
    requires |tr.moves| == |tr.links| && 0 <= k < |tr.links|
  {
    var l := tr.links[k];
    l == -1 || (k < l < |tr.links| && IsCapture(tr.moves[k])
                && ChainStart(tr.moves[l], tr.moves[k].x2, tr.moves[k].y2))
  }

  /** Every state from lo on is linked correctly. */
  predicate LinkedFrom(tr: Trace, lo: nat) {
    |tr.moves| == |tr.links| && forall k | lo <= k < |tr.links| :: LinkOk(tr, k)
  }

  /** The best score reachable from state state, which find_first_best_turn pushes
      onto the two vectors; (x, y) is the chain's square when state != 0. At state 0
      the moves are the ones an earlier find_turns(color) call left in g. */
  function First(p: Params, m: Matrix, color: bool, x: int, y: int, state: nat, alpha: real,
                 tr: Trace, g: Gen): (r: (real, Trace, Gen))
    requires |tr.moves| == |tr.links| == state
    requires state != 0 ==> InBounds(x, y) && m[x][y] != 0
    requires state == 0 ==> MovesOk(m, g.turns, g.haveBeats)
    ensures |r.1.moves| == |r.1.links| > state && SamePrefix(tr, r.1, state)
    decreases Pieces(m), 1, 0
  {
    var tr1 := Trace(tr.moves + [Placeholder], tr.links + [-1]);
    var g1 := if state != 0 then SquareTurns(m, x, y, g) else g;
    if !g1.haveBeats && state != 0 then
      var s := Rec(p, m, !color, 0, alpha, INF + 1.0, -1, -1, g1);
      (s.0, tr1, s.1)
    else FirstLoop(p, m, color, state, g1.turns, g1.haveBeats, 0, -1.0, tr1, g1)
  }

  /** The loop of find_first_best_turn over ts[i..] with the best score so far. */
  function FirstLoop(p: Params, m: Matrix, color: bool, state: nat, ts: seq<Move>, hb: bool,
                     i: nat, best: real, tr: Trace, g: Gen): (r: (real, Trace, Gen))
    requires state < |tr.moves| == |tr.links| && i <= |ts|
    requires MovesOk(m, ts, hb)
    ensures |r.1.moves| == |r.1.links| >= |tr.moves| && SamePrefix(tr, r.1, state)
    decreases Pieces(m), 0, |ts| - i
  {
    if i == |ts| then (best, tr, g)
    else
      assert ts[i] in ts;
      var t := ts[i];
      var c := FirstChild(p, m, color, t, hb, best, tr, g);
      if c.0 > best then
        var tr3 := Trace(c.1.moves[state := t], c.1.links[state := if hb then |tr.moves| else -1]);
        FirstLoop(p, m, color, state, ts, hb, i + 1, c.0, tr3, c.2)
      else FirstLoop(p, m, color, state, ts, hb, i + 1, best, c.1, c.2)
  }

  /** The score of the child reached by t: the continuation of the chain, in a new state
      at the end of the vectors, after a capture; the opponent's reply at depth 0 after
      a plain move. */
  function FirstChild(p: Params, m: Matrix, color: bool, t: Move, hb: bool, best: real,
                      tr: Trace, g: Gen): (r: (real, Trace, Gen))
    requires 0 < |tr.moves| == |tr.links|
    requires Playable(m, t) && IsCapture(t) == hb
    ensures |r.1.moves| == |r.1.links| >= |tr.moves| && SamePrefix(tr, r.1, |tr.moves|)
    ensures hb ==> |r.1.moves| > |tr.moves|
    ensures !hb ==> r.1 == tr
    decreases Pieces(m), 0, 0
  {
    if hb then
      CaptureShrinks(m, t);
      First(p, MakeTurn(m, t), color, t.x2, t.y2, |tr.moves|, best, tr, g)
    else
      var s := Rec(p, MakeTurn(m, t), !color, 0, best, INF + 1.0, -1, -1, g);
      (s.0, tr, s.1)
  }

  /** The child's score, vectors and generator state for move i of
      find_first_best_turn's loop. */
  predicate FirstStepOk(p: Params, m: Matrix, color: bool, ts: seq<Move>, hb: bool, i: nat,
                        best: real, tr: Trace, g: Gen, score: real, tr2: Trace, g2: Gen)
    requires 0 < |tr.moves| == |tr.links| && i < |ts|
    requires MovesOk(m, ts, hb)
  {
    assert ts[i] in ts;
    (score, tr2, g2) == FirstChild(p, m, color, ts[i], hb, best, tr, g)
  }

  /** A child scoring above the best so far becomes the best, with its move and state
      written into state. */
  lemma FirstLoopBetter(p: Params, m: Matrix, color: bool, state: nat, ts: seq<Move>, hb: bool,
                        i: nat, best: real, tr: Trace, g: Gen, score: real, tr2: Trace, g2: Gen)
    requires state < |tr.moves| == |tr.links| && i < |ts|
    requires MovesOk(m, ts, hb)
    requires FirstStepOk(p, m, color, ts, hb, i, best, tr, g, score, tr2, g2)
    requires score > best
    ensures state < |tr2.moves| == |tr2.links|
    ensures FirstLoop(p, m, color, state, ts, hb, i, best, tr, g)
         == FirstLoop(p, m, color, state, ts, hb, i + 1, score,
                      Trace(tr2.moves[state := ts[i]], tr2.links[state := if hb then |tr.moves| else -1]), g2)
  {
    assert ts[i] in ts;
  }

  /** A child scoring no better leaves the best and state unchanged. */
  lemma FirstLoopKeep(p: Params, m: Matrix, color: bool, state: nat, ts: seq<Move>, hb: bool,
                      i: nat, best: real, tr: Trace, g: Gen, score: real, tr2: Trace, g2: Gen)
    requires state < |tr.moves| == |tr.links| && i < |ts|
    requires MovesOk(m, ts, hb)
    requires FirstStepOk(p, m, color, ts, hb, i, best, tr, g, score, tr2, g2)
    requires score <= best
    ensures state < |tr2.moves| == |tr2.links|
    ensures FirstLoop(p, m, color, state, ts, hb, i, best, tr, g)
         == FirstLoop(p, m, color, state, ts, hb, i + 1, best, tr2, g2)
  {
    assert ts[i] in ts;
  }

  /** Writing the chosen move t into state, linked to the child's state |tr.moves| if t
      is a capture, keeps every state from state on linked correctly. */
  lemma UpdateLinked(tr: Trace, tr2: Trace, state: nat, t: Move, hb: bool)
    requires LinkedFrom(tr, state) && state < |tr.moves|
    requires hb ==> IsCapture(t)
    requires |tr2.moves| == |tr2.links| >= |tr.moves| && SamePrefix(tr, tr2, |tr.moves|)
    requires LinkedFrom(tr2, |tr.moves|)
    requires hb ==> |tr2.moves| > |tr.moves| && ChainStart(tr2.moves[|tr.moves|], t.x2, t.y2)
    ensures LinkedFrom(tr2, state)
    ensures LinkedFrom(Trace(tr2.moves[state := t], tr2.links[state := if hb then |tr.moves| else -1]), state)
  {
    var n := |tr.moves|;
    var tr3 := Trace(tr2.moves[state := t], tr2.links[state := if hb then n else -1]);
    forall k | state <= k < |tr2.links|
      ensures LinkOk(tr2, k) && LinkOk(tr3, k)
    {
      if k < n {
        assert LinkOk(tr, k);
      }
    }
  }

  /** The states find_first_best_turn creates are linked correctly; the move it records
      for its own state continues the chain from (x, y), or at state 0 is one of the
      stored moves, unless no move was chosen. */
  lemma {:induction false} FirstShape(p: Params, m: Matrix, color: bool, x: int, y: int, state: nat,
                                      alpha: real, tr: Trace, g: Gen)
    requires |tr.moves| == |tr.links| == state
    requires state != 0 ==> InBounds(x, y) && m[x][y] != 0
    requires state == 0 ==> MovesOk(m, g.turns, g.haveBeats)
    ensures var r := First(p, m, color, x, y, state, alpha, tr, g).1;
      && LinkedFrom(r, state)
      && (state != 0 ==> ChainStart(r.moves[state], x, y))
      && (state == 0 ==> r.moves[0] == Placeholder || r.moves[0] in g.turns)
    decreases Pieces(m), 1, 0
  {
    var tr1 := Trace(tr.moves + [Placeholder], tr.links + [-1]);
    var g1 := if state != 0 then SquareTurns(m, x, y, g) else g;
    if state != 0 {
      SquareTurnsRules(m, x, y, g);
    }
    if g1.haveBeats || state == 0 {
      assert LinkOk(tr1, state);
      FirstLoopShape(p, m, color, state, g1.turns, g1.haveBeats, 0, -1.0, tr1, g1);
    } else {
      assert LinkOk(tr1, state);
    }
  }

  lemma {:induction false} FirstLoopShape(p: Params, m: Matrix, color: bool, state: nat, ts: seq<Move>,
                                          hb: bool, i: nat, best: real, tr: Trace, g: Gen)
    requires state < |tr.moves| == |tr.links| && i <= |ts|
    requires MovesOk(m, ts, hb) && LinkedFrom(tr, state)
    ensures var r := FirstLoop(p, m, color, state, ts, hb, i, best, tr, g).1;
      LinkedFrom(r, state) && (r.moves[state] == tr.moves[state] || r.moves[state] in ts)
    decreases Pieces(m), 0, |ts| - i, 1
  {
    if i < |ts| {
      assert ts[i] in ts;
      var c := FirstChild(p, m, color, ts[i], hb, best, tr, g);
      assert FirstStepOk(p, m, color, ts, hb, i, best, tr, g, c.0, c.1, c.2);
      if c.0 > best {
        FirstLoopShapeBetter(p, m, color, state, ts, hb, i, best, tr, g, c.0, c.1, c.2);
      } else {
        FirstLoopShapeKeep(p, m, color, state, ts, hb, i, best, tr, g, c.0, c.1, c.2);
      }
    }
  }

  /** The shape of the loop after a child that becomes the best. */
  lemma {:induction false} FirstLoopShapeBetter(p: Params, m: Matrix, color: bool, state: nat, ts: seq<Move>,
                                                hb: bool, i: nat, best: real, tr: Trace, g: Gen,
                                                score: real, tr2: Trace, g2: Gen)
    requires state < |tr.moves| == |tr.links| && i < |ts|
    requires MovesOk(m, ts, hb) && LinkedFrom(tr, state)
    requires FirstStepOk(p, m, color, ts, hb, i, best, tr, g, score, tr2, g2)
    requires score > best
    ensures var r := FirstLoop(p, m, color, state, ts, hb, i, best, tr, g).1;
      LinkedFrom(r, state) && r.moves[state] in ts
    decreases Pieces(m), 0, |ts| - i, 0
  {
    assert ts[i] in ts;
    FirstChildShape(p, m, color, ts[i], hb, best, tr, g);
    UpdateLinked(tr, tr2, state, ts[i], hb);
    var tr3 := Trace(tr2.moves[state := ts[i]], tr2.links[state := if hb then |tr.moves| else -1]);
    FirstLoopBetter(p, m, color, state, ts, hb, i, best, tr, g, score, tr2, g2);
    FirstLoopShape(p, m, color, state, ts, hb, i + 1, score, tr3, g2);
  }

  /** The shape of the loop after a child that does not beat the best. */
  lemma {:induction false} FirstLoopShapeKeep(p: Params, m: Matrix, color: bool, state: nat, ts: seq<Move>,
                                              hb: bool, i: nat, best: real, tr: Trace, g: Gen,
                                              score: real, tr2: Trace, g2: Gen)
    requires state < |tr.moves| == |tr.links| && i < |ts|
    requires MovesOk(m, ts, hb) && LinkedFrom(tr, state)
    requires FirstStepOk(p, m, color, ts, hb, i, best, tr, g, score, tr2, g2)
    requires score <= best
    ensures var r := FirstLoop(p, m, color, state, ts, hb, i, best, tr, g).1;
      LinkedFrom(r, state) && (r.moves[state] == tr.moves[state] || r.moves[state] in ts)
    decreases Pieces(m), 0, |ts| - i, 0
  {
    assert ts[i] in ts;
    FirstChildShape(p, m, color, ts[i], hb, best, tr, g);
    UpdateLinked(tr, tr2, state, ts[i], hb);
    FirstLoopKeep(p, m, color, state, ts, hb, i, best, tr, g, score, tr2, g2);
    assert tr2.moves[state] == tr.moves[state];
    FirstLoopShape(p, m, color, state, ts, hb, i + 1, best, tr2, g2);
  }

  lemma {:induction false} FirstChildShape(p: Params, m: Matrix, color: bool, t: Move, hb: bool,
                                           best: real, tr: Trace, g: Gen)
    requires 0 < |tr.moves| == |tr.links|
    requires Playable(m, t) && IsCapture(t) == hb
    ensures var r := FirstChild(p, m, color, t, hb, best, tr, g).1;
      LinkedFrom(r, |tr.moves|) && (hb ==> ChainStart(r.moves[|tr.moves|], t.x2, t.y2))
    decreases Pieces(m), 0, 0
  {
    if hb {
      CaptureShrinks(m, t);
      FirstShape(p, MakeTurn(m, t), color, t.x2, t.y2, |tr.moves|, best, tr, g);
    }
  }

  // ---------------------------------------------------------------------------
  // Scores at the root, without pruning.

  /** Without pruning a state below the root always scores at least 0, and so does the
      root when it has a move; the root then records one of the stored moves. */
  lemma {:induction false} FirstNonneg(p: Params, m: Matrix, color: bool, x: int, y: int, state: nat,
                                       alpha: real, tr: Trace, g: Gen)
    requires !p.pruning
    requires |tr.moves| == |tr.links| == state
    requires state != 0 ==> InBounds(x, y) && m[x][y] != 0
    requires state == 0 ==> MovesOk(m, g.turns, g.haveBeats) && |g.turns| > 0
    ensures var r := First(p, m, color, x, y, state, alpha, tr, g);
      r.0 >= 0.0 && (state == 0 ==> r.1.moves[0] in g.turns)
    decreases Pieces(m), 1, 0
  {
    var tr1 := Trace(tr.moves + [Placeholder], tr.links + [-1]);
    var g1 := if state != 0 then SquareTurns(m, x, y, g) else g;
    if !g1.haveBeats && state != 0 {
      RecRange(p, m, !color, 0, alpha, INF + 1.0, -1, -1, g1);
    } else {
      FirstLoopPicks(p, m, color, state, g1.turns, g1.haveBeats, 0, -1.0, tr1, g1);
    }
  }

  /** The loop never lowers the best score; once it has run over a move the score is at
      least 0, and the move recorded for state is one of ts. */
  lemma {:induction false} FirstLoopPicks(p: Params, m: Matrix, color: bool, state: nat, ts: seq<Move>,
                                          hb: bool, i: nat, best: real, tr: Trace, g: Gen)
    requires !p.pruning
    requires state < |tr.moves| == |tr.links| && i <= |ts|
    requires MovesOk(m, ts, hb)
    ensures var r := FirstLoop(p, m, color, state, ts, hb, i, best, tr, g);
      && r.0 >= best && (i < |ts| ==> r.0 >= 0.0)
      && ((tr.moves[state] in ts || (i < |ts| && best < 0.0)) ==> r.1.moves[state] in ts)
    decreases Pieces(m), 0, |ts| - i, 1
  {
    if i < |ts| {
      assert ts[i] in ts;
      var c := FirstChild(p, m, color, ts[i], hb, best, tr, g);
      assert FirstStepOk(p, m, color, ts, hb, i, best, tr, g, c.0, c.1, c.2);
      if c.0 > best {
        FirstLoopPicksBetter(p, m, color, state, ts, hb, i, best, tr, g, c.0, c.1, c.2);
      } else {
        FirstLoopPicksKeep(p, m, color, state, ts, hb, i, best, tr, g, c.0, c.1, c.2);
      }
    }
  }

  /** The loop's score and choice after a child that becomes the best. */
  lemma {:induction false} FirstLoopPicksBetter(p: Params, m: Matrix, color: bool, state: nat, ts: seq<Move>,
                                                hb: bool, i: nat, best: real, tr: Trace, g: Gen,
                                                score: real, tr2: Trace, g2: Gen)
    requires !p.pruning
    requires state < |tr.moves| == |tr.links| && i < |ts|
    requires MovesOk(m, ts, hb)
    requires FirstStepOk(p, m, color, ts, hb, i, best, tr, g, score, tr2, g2)
    requires score > best
    ensures var r := FirstLoop(p, m, color, state, ts, hb, i, best, tr, g);
      r.0 >= score && r.0 >= 0.0 && r.1.moves[state] in ts
    decreases Pieces(m), 0, |ts| - i, 0
  {
    assert ts[i] in ts;
    FirstChildNonneg(p, m, color, ts[i], hb, best, tr, g);
    var tr3 := Trace(tr2.moves[state := ts[i]], tr2.links[state := if hb then |tr.moves| else -1]);
    FirstLoopBetter(p, m, color, state, ts, hb, i, best, tr, g, score, tr2, g2);
    FirstLoopPicks(p, m, color, state, ts, hb, i + 1, score, tr3, g2);
  }

  /** The loop's score and choice after a child that does not beat the best. */
  lemma {:induction false} FirstLoopPicksKeep(p: Params, m: Matrix, color: bool, state: nat, ts: seq<Move>,
                                              hb: bool, i: nat, best: real, tr: Trace, g: Gen,
                                              score: real, tr2: Trace, g2: Gen)
    requires !p.pruning
    requires state < |tr.moves| == |tr.links| && i < |ts|
    requires MovesOk(m, ts, hb)
    requires FirstStepOk(p, m, color, ts, hb, i, best, tr, g, score, tr2, g2)
    requires score <= best
    ensures var r := FirstLoop(p, m, color, state, ts, hb, i, best, tr, g);
      && r.0 >= best && score >= 0.0
      && (tr.moves[state] in ts ==> r.1.moves[state] in ts)
    decreases Pieces(m), 0, |ts| - i, 0
  {
    assert ts[i] in ts;
    FirstChildNonneg(p, m, color, ts[i], hb, best, tr, g);
    assert tr2.moves[state] == tr.moves[state];
    FirstLoopKeep(p, m, color, state, ts, hb, i, best, tr, g, score, tr2, g2);
    FirstLoopPicks(p, m, color, state, ts, hb, i + 1, best, tr2, g2);
  }

  lemma {:induction false} FirstChildNonneg(p: Params, m: Matrix, color: bool, t: Move, hb: bool,
                                            best: real, tr: Trace, g: Gen)
    requires !p.pruning
    requires 0 < |tr.moves| == |tr.links|
    requires Playable(m, t) && IsCapture(t) == hb
    ensures FirstChild(p, m, color, t, hb, best, tr, g).0 >= 0.0
    decreases Pieces(m), 0, 0
  {
    if hb {
      CaptureShrinks(m, t);
      FirstNonneg(p, MakeTurn(m, t), color, t.x2, t.y2, |tr.moves|, best, tr, g);
    } else {
      RecRange(p, MakeTurn(m, t), !color, 0, best, INF + 1.0, -1, -1, g);
    }
  }

  // ---------------------------------------------------------------------------
  // The reference for find_first_best_turn without pruning: the value of a state is
  // the largest of its children's values (-1 if it has none), and the move it records
  // is the first one reaching that value.

  /** The largest of best and the values vs. */
  function Top(best: real, vs: seq<real>): real
    decreases |vs|
  {
    if vs == [] then best else Top(Max(best, vs[0]), vs[1..])
  }

  /** The first index whose value exceeds best and every value before it, -1 if none
      exceeds best. */
  function ArgTop(best: real, vs: seq<real>): (r: int)
    ensures -1 <= r < |vs|
    decreases |vs|
  {
    if vs == [] then -1
    else
      var k := ArgTop(Max(best, vs[0]), vs[1..]);
      if k != -1 then k + 1 else if vs[0] > best then 0 else -1
  }

  /** Top is the maximum of best and vs; ArgTop is -1 exactly when no value exceeds
      best, and otherwise the first index reaching the maximum, every earlier value
      being strictly smaller. */
  lemma {:induction false} TopIsMax(best: real, vs: seq<real>)
    ensures Top(best, vs) >= best
    ensures forall j | 0 <= j < |vs| :: vs[j] <= Top(best, vs)
    ensures var k := ArgTop(best, vs);
      && (k == -1 ==> Top(best, vs) == best)
      && (k != -1 ==> 0 <= k < |vs| && vs[k] == Top(best, vs) && vs[k] > best
                      && forall j | 0 <= j < k :: vs[j] < vs[k])
    decreases |vs|
  {
    if vs != [] {
      var b1, rest := Max(best, vs[0]), vs[1..];
      TopIsMax(b1, rest);
      assert forall j | 1 <= j < |vs| :: vs[j] == rest[j - 1];
    }
  }

  /** The value of state: at the root (root) the children of the moves stored in g, on
      a chain square (x, y) the continuations from it, or the opponent's minimax score
      when the piece there can capture no further. */
  function FirstValue(p: Params, m: Matrix, color: bool, x: int, y: int, root: bool, g: Gen): (real, Gen)
    requires !root ==> InBounds(x, y) && m[x][y] != 0
    requires root ==> MovesOk(m, g.turns, g.haveBeats)
    decreases Pieces(m), 1, 0
  {
    var g1 := if !root then SquareTurns(m, x, y, g) else g;
    if !g1.haveBeats && !root then Minimax(p, m, !color, 0, -1, -1, g1)
    else
      var (vs, g2) := FirstValues(p, m, color, g1.turns, g1.haveBeats, 0, g1);
      (Top(-1.0, vs), g2)
  }

  /** The values of the children reached by ts[i..], in order. */
  function FirstValues(p: Params, m: Matrix, color: bool, ts: seq<Move>, hb: bool, i: nat,
                       g: Gen): (r: (seq<real>, Gen))
    requires i <= |ts| && MovesOk(m, ts, hb)
    ensures |r.0| == |ts| - i
    decreases Pieces(m), 0, |ts| - i
  {
    if i == |ts| then ([], g)
    else
      assert ts[i] in ts;
      var (v, g2) := FirstChildValue(p, m, color, ts[i], hb, g);
      var (rest, g3) := FirstValues(p, m, color, ts, hb, i + 1, g2);
      ([v] + rest, g3)
  }

  /** The value of the child reached by t: the chain's continuation after a capture,
      the opponent's minimax score at depth 0 after a plain move. */
  function FirstChildValue(p: Params, m: Matrix, color: bool, t: Move, hb: bool, g: Gen): (real, Gen)
    requires Playable(m, t) && IsCapture(t) == hb
    decreases Pieces(m), 0, 0
  {
    if hb then
      CaptureShrinks(m, t);
      FirstValue(p, MakeTurn(m, t), color, t.x2, t.y2, false, g)
    else Minimax(p, MakeTurn(m, t), !color, 0, -1, -1, g)
  }

  /** rm is the record of the values vs scanned from position i of ts with strict
      improvement over best: the turn at the first index reaching their maximum when
      one beats best, the record kept so far otherwise. */
  predicate Records(best: real, vs: seq<real>, rm: Move, kept: Move, ts: seq<Move>, i: int)
  {
    var k := ArgTop(best, vs);
    && (k != -1 ==> 0 <= i + k < |ts| && rm == ts[i + k])
    && (k == -1 ==> rm == kept)
  }

  /** The record for vs at position i when its first value s beats best: the record
      rm made for the values rest after it, where s is the new best and the record so
      far is ts[i]. */
  lemma RecordBetter(best: real, s: real, vs: seq<real>, rest: seq<real>, rm: Move, cur: Move, kept: Move,
                     ts: seq<Move>, i: nat)
    requires i < |ts| && |vs| == |ts| - i && vs[0] == s && vs[1..] == rest && s > best && cur == ts[i]
    requires Records(s, rest, rm, cur, ts, i + 1)
    ensures ArgTop(best, vs) != -1 && Records(best, vs, rm, kept, ts, i)
  {
    assert Max(best, s) == s;
    var k1 := ArgTop(s, rest);
    assert ArgTop(best, vs) == if k1 != -1 then k1 + 1 else 0;
  }

  /** The record for vs at position i when its first value s does not beat best: the
      record rm made for the values rest after it, from the record kept so far. */
  lemma RecordKeep(best: real, s: real, vs: seq<real>, rest: seq<real>, rm: Move, kept: Move,
                   ts: seq<Move>, i: nat)
    requires i < |ts| && |vs| == |ts| - i && vs[0] == s && vs[1..] == rest && s <= best
    requires Records(best, rest, rm, kept, ts, i + 1)
    ensures Records(best, vs, rm, kept, ts, i)
  {
    assert Max(best, s) == best;
    var k1 := ArgTop(best, rest);
    assert ArgTop(best, vs) == if k1 != -1 then k1 + 1 else -1;
  }

  /** One step of the children's values. */
  lemma FirstValuesStep(p: Params, m: Matrix, color: bool, ts: seq<Move>, hb: bool, i: nat, g: Gen)
    requires i < |ts| && MovesOk(m, ts, hb)
    ensures ts[i] in ts
    ensures var c := FirstChildValue(p, m, color, ts[i], hb, g);
      var rest, vs := FirstValues(p, m, color, ts, hb, i + 1, c.1), FirstValues(p, m, color, ts, hb, i, g);
      vs.0 != [] && vs.0[0] == c.0 && vs.0[1..] == rest.0 && vs.1 == rest.1
  {
    var c := FirstChildValue(p, m, color, ts[i], hb, g);
    var rest := FirstValues(p, m, color, ts, hb, i + 1, c.1);
    assert ([c.0] + rest.0)[1..] == rest.0;
  }

  /** Without pruning find_first_best_turn computes the reference value of its state and
      leaves the generator as the reference does, whatever alpha and vectors it gets. */
  lemma {:induction false} FirstIsValue(p: Params, m: Matrix, color: bool, x: int, y: int, state: nat,
                                        alpha: real, tr: Trace, g: Gen)
    requires !p.pruning
    requires |tr.moves| == |tr.links| == state
    requires state != 0 ==> InBounds(x, y) && m[x][y] != 0
    requires state == 0 ==> MovesOk(m, g.turns, g.haveBeats)
    ensures var r, v := First(p, m, color, x, y, state, alpha, tr, g), FirstValue(p, m, color, x, y, state == 0, g);
      r.0 == v.0 && r.2 == v.1
    decreases Pieces(m), 1, 0
  {
    var tr1 := Trace(tr.moves + [Placeholder], tr.links + [-1]);
    var g1 := if state != 0 then SquareTurns(m, x, y, g) else g;
    if !g1.haveBeats && state != 0 {
      RecIsMinimax(p, m, !color, 0, alpha, INF + 1.0, -1, -1, g1);
    } else {
      FirstLoopScores(p, m, color, state, g1.turns, g1.haveBeats, 0, -1.0, tr1, g1);
    }
  }

  /** Without pruning the loop over ts[i..] raises best to the largest of the children's
      values, and leaves the generator as the reference does. */
  lemma {:induction false} FirstLoopScores(p: Params, m: Matrix, color: bool, state: nat, ts: seq<Move>,
                                hb: bool, i: nat, best: real, tr: Trace, g: Gen)
    requires !p.pruning
    requires state < |tr.moves| == |tr.links| && i <= |ts|
    requires MovesOk(m, ts, hb)
    ensures var vs, r := FirstValues(p, m, color, ts, hb, i, g), FirstLoop(p, m, color, state, ts, hb, i, best, tr, g);
      r.0 == Top(best, vs.0) && r.2 == vs.1
    decreases Pieces(m), 0, |ts| - i, 1
  {
    if i < |ts| {
      assert ts[i] in ts;
      var c := FirstChild(p, m, color, ts[i], hb, best, tr, g);
      assert FirstStepOk(p, m, color, ts, hb, i, best, tr, g, c.0, c.1, c.2);
      FirstChildIsValue(p, m, color, ts[i], hb, best, tr, g);
      if c.0 > best {
        FirstLoopScoresBetter(p, m, color, state, ts, hb, i, best, tr, g, c.0, c.1, c.2);
      } else {
        FirstLoopScoresKeep(p, m, color, state, ts, hb, i, best, tr, g, c.0, c.1, c.2);
      }
    }
  }

  /** The loop's score after a child that becomes the best. */
  lemma {:induction false} FirstLoopScoresBetter(p: Params, m: Matrix, color: bool, state: nat, ts: seq<Move>,
                                hb: bool, i: nat, best: real, tr: Trace, g: Gen,
                                score: real, tr2: Trace, g2: Gen)
    requires !p.pruning
    requires state < |tr.moves| == |tr.links| && i < |ts|
    requires MovesOk(m, ts, hb)
    requires FirstStepOk(p, m, color, ts, hb, i, best, tr, g, score, tr2, g2)
    requires ts[i] in ts && (score, g2) == FirstChildValue(p, m, color, ts[i], hb, g)
    requires score > best
    ensures var vs, r := FirstValues(p, m, color, ts, hb, i, g), FirstLoop(p, m, color, state, ts, hb, i, best, tr, g);
      r.0 == Top(best, vs.0) && r.2 == vs.1
    decreases Pieces(m), 0, |ts| - i, 0
  {
    var tr3 := Trace(tr2.moves[state := ts[i]], tr2.links[state := if hb then |tr.moves| else -1]);
    FirstLoopBetter(p, m, color, state, ts, hb, i, best, tr, g, score, tr2, g2);
    FirstValuesStep(p, m, color, ts, hb, i, g);
    var rest := FirstValues(p, m, color, ts, hb, i + 1, g2);
    FirstLoopScores(p, m, color, state, ts, hb, i + 1, score, tr3, g2);
    assert Max(best, score) == score;
  }

  /** The loop's score after a child that does not beat the best. */
  lemma {:induction false} FirstLoopScoresKeep(p: Params, m: Matrix, color: bool, state: nat, ts: seq<Move>,
                                hb: bool, i: nat, best: real, tr: Trace, g: Gen,
                                score: real, tr2: Trace, g2: Gen)
    requires !p.pruning
    requires state < |tr.moves| == |tr.links| && i < |ts|
    requires MovesOk(m, ts, hb)
    requires FirstStepOk(p, m, color, ts, hb, i, best, tr, g, score, tr2, g2)
    requires ts[i] in ts && (score, g2) == FirstChildValue(p, m, color, ts[i], hb, g)
    requires score <= best
    ensures var vs, r := FirstValues(p, m, color, ts, hb, i, g), FirstLoop(p, m, color, state, ts, hb, i, best, tr, g);
      r.0 == Top(best, vs.0) && r.2 == vs.1
    decreases Pieces(m), 0, |ts| - i, 0
  {
    FirstLoopKeep(p, m, color, state, ts, hb, i, best, tr, g, score, tr2, g2);
    FirstValuesStep(p, m, color, ts, hb, i, g);
    var rest := FirstValues(p, m, color, ts, hb, i + 1, g2);
    FirstLoopScores(p, m, color, state, ts, hb, i + 1, best, tr2, g2);
    assert Max(best, score) == best;
  }

  /** Without pruning the loop over ts[i..] records at state the first move whose child
      reaches the largest value, when that value beats best, and otherwise keeps the
      record it was given. */
  lemma {:induction false} FirstLoopRecord(p: Params, m: Matrix, color: bool, state: nat, ts: seq<Move>,
                                hb: bool, i: nat, best: real, tr: Trace, g: Gen)
    requires !p.pruning
    requires state < |tr.moves| == |tr.links| && i <= |ts|
    requires MovesOk(m, ts, hb)
    ensures Records(best, FirstValues(p, m, color, ts, hb, i, g).0,
                    FirstLoop(p, m, color, state, ts, hb, i, best, tr, g).1.moves[state], tr.moves[state], ts, i)
    decreases Pieces(m), 0, |ts| - i, 1
  {
    if i < |ts| {
      assert ts[i] in ts;
      var c := FirstChild(p, m, color, ts[i], hb, best, tr, g);
      assert FirstStepOk(p, m, color, ts, hb, i, best, tr, g, c.0, c.1, c.2);
      FirstChildIsValue(p, m, color, ts[i], hb, best, tr, g);
      if c.0 > best {
        FirstLoopRecordBetter(p, m, color, state, ts, hb, i, best, tr, g, c.0, c.1, c.2);
      } else {
        FirstLoopRecordKeep(p, m, color, state, ts, hb, i, best, tr, g, c.0, c.1, c.2);
      }
    }
  }

  /** Without pruning, at the root or on a square whose piece can capture again,
      find_first_best_turn records for state the first of the considered moves whose
      value reaches the maximum over them, when one exceeds -1, and the placeholder
      otherwise. */
  lemma {:induction false} FirstRecords(p: Params, m: Matrix, color: bool, x: int, y: int, state: nat,
                                        alpha: real, tr: Trace, g: Gen)
    requires !p.pruning
    requires |tr.moves| == |tr.links| == state
    requires state != 0 ==> InBounds(x, y) && m[x][y] != 0
    requires state == 0 ==> MovesOk(m, g.turns, g.haveBeats)
    ensures var g1 := if state != 0 then SquareTurns(m, x, y, g) else g;
      (g1.haveBeats || state == 0) ==>
        Records(-1.0, FirstValues(p, m, color, g1.turns, g1.haveBeats, 0, g1).0,
                First(p, m, color, x, y, state, alpha, tr, g).1.moves[state], Placeholder, g1.turns, 0)
  {
    var tr1 := Trace(tr.moves + [Placeholder], tr.links + [-1]);
    var g1 := if state != 0 then SquareTurns(m, x, y, g) else g;
    if g1.haveBeats || state == 0 {
      assert tr1.moves[state] == Placeholder;
      FirstLoopRecord(p, m, color, state, g1.turns, g1.haveBeats, 0, -1.0, tr1, g1);
    }
  }

  /** The loop's record after a child that becomes the best. */
  lemma {:induction false} FirstLoopRecordBetter(p: Params, m: Matrix, color: bool, state: nat, ts: seq<Move>,
                                hb: bool, i: nat, best: real, tr: Trace, g: Gen,
                                score: real, tr2: Trace, g2: Gen)
    requires !p.pruning
    requires state < |tr.moves| == |tr.links| && i < |ts|
    requires MovesOk(m, ts, hb)
    requires FirstStepOk(p, m, color, ts, hb, i, best, tr, g, score, tr2, g2)
    requires ts[i] in ts && (score, g2) == FirstChildValue(p, m, color, ts[i], hb, g)
    requires score > best
    ensures Records(best, FirstValues(p, m, color, ts, hb, i, g).0,
                    FirstLoop(p, m, color, state, ts, hb, i, best, tr, g).1.moves[state], tr.moves[state], ts, i)
    decreases Pieces(m), 0, |ts| - i, 0
  {
    var tr3 := Trace(tr2.moves[state := ts[i]], tr2.links[state := if hb then |tr.moves| else -1]);
    FirstLoopBetter(p, m, color, state, ts, hb, i, best, tr, g, score, tr2, g2);
    FirstValuesStep(p, m, color, ts, hb, i, g);
    var rest := FirstValues(p, m, color, ts, hb, i + 1, g2).0;
    FirstLoopRecord(p, m, color, state, ts, hb, i + 1, score, tr3, g2);
    var r := FirstLoop(p, m, color, state, ts, hb, i + 1, score, tr3, g2).1;
    RecordBetter(best, score, FirstValues(p, m, color, ts, hb, i, g).0, rest, r.moves[state], tr3.moves[state],
                 tr.moves[state], ts, i);
  }

  /** The loop's record after a child that does not beat the best. */
  lemma {:induction false} FirstLoopRecordKeep(p: Params, m: Matrix, color: bool, state: nat, ts: seq<Move>,
                                hb: bool, i: nat, best: real, tr: Trace, g: Gen,
                                score: real, tr2: Trace, g2: Gen)
    requires !p.pruning
    requires state < |tr.moves| == |tr.links| && i < |ts|
    requires MovesOk(m, ts, hb)
    requires FirstStepOk(p, m, color, ts, hb, i, best, tr, g, score, tr2, g2)
    requires ts[i] in ts && (score, g2) == FirstChildValue(p, m, color, ts[i], hb, g)
    requires score <= best
    ensures Records(best, FirstValues(p, m, color, ts, hb, i, g).0,
                    FirstLoop(p, m, color, state, ts, hb, i, best, tr, g).1.moves[state], tr.moves[state], ts, i)
    decreases Pieces(m), 0, |ts| - i, 0
  {
    FirstLoopKeep(p, m, color, state, ts, hb, i, best, tr, g, score, tr2, g2);
    FirstValuesStep(p, m, color, ts, hb, i, g);
    assert tr2.moves[state] == tr.moves[state];
    var rest := FirstValues(p, m, color, ts, hb, i + 1, g2).0;
    FirstLoopRecord(p, m, color, state, ts, hb, i + 1, best, tr2, g2);
    var r := FirstLoop(p, m, color, state, ts, hb, i + 1, best, tr2, g2).1;
    RecordKeep(best, score, FirstValues(p, m, color, ts, hb, i, g).0, rest, r.moves[state], tr.moves[state], ts, i);
  }

  /** A root child's score and generator state are the reference's. */
  lemma {:induction false} FirstChildIsValue(p: Params, m: Matrix, color: bool, t: Move, hb: bool,
                                             best: real, tr: Trace, g: Gen)
    requires !p.pruning
    requires 0 < |tr.moves| == |tr.links|
    requires Playable(m, t) && IsCapture(t) == hb
    ensures var c, v := FirstChild(p, m, color, t, hb, best, tr, g), FirstChildValue(p, m, color, t, hb, g);
      c.0 == v.0 && c.2 == v.1
    decreases Pieces(m), 0, 0
  {
    if hb {
      CaptureShrinks(m, t);
      FirstIsValue(p, MakeTurn(m, t), color, t.x2, t.y2, |tr.moves|, best, tr, g);
    } else {
      RecIsMinimax(p, MakeTurn(m, t), !color, 0, best, INF + 1.0, -1, -1, g);
    }
  }

  // ---------------------------------------------------------------------------
  // find_best_turns: the do-while walk over the links.

  /** b continues a's capture: both are captures and b starts where a lands. */
  predicate Follows(a: Move, b: Move) {
    IsCapture(a) && IsCapture(b) && b.x == a.x2 && b.y == a.y2
  }

  /** Each move of s after the first continues the capture before it. */
  predicate Chain(s: seq<Move>) {
    |s| <= 1 || (Follows(s[0], s[1]) && Chain(s[1..]))
  }

  /** The moves from state cur on: each state's move, then the linked state's while the
      link is set and that state has a move. Every later move is a capture starting
      where the previous one, itself a capture, lands. */
  function Walk(tr: Trace, cur: nat): (r: seq<Move>)
    requires LinkedFrom(tr, 0) && cur < |tr.moves|
    ensures |r| >= 1 && r[0] == tr.moves[cur]
    ensures Chain(r)
    decreases |tr.moves| - cur
  {
    assert LinkOk(tr, cur);
    var nx := tr.links[cur];
    if nx != -1 && tr.moves[nx].x != -1 then [tr.moves[cur]] + Walk(tr, nx)
    else [tr.moves[cur]]
  }

  /** find_best_turns(color): the turn the bot plays, with the vectors and the generator
      state it leaves behind. The turn starts with the move recorded at the root, which
      is one of the stored moves unless none was chosen; a turn of several moves is a
      chain of captures, each starting where the previous one lands. */
  function BestTurns(p: Params, m: Matrix, color: bool, g: Gen): (r: (seq<Move>, Trace, Gen))
    requires MovesOk(m, g.turns, g.haveBeats)
    ensures |r.0| >= 1 && (r.0[0] == Placeholder || r.0[0] in g.turns)
    ensures Chain(r.0)
  {
    var f := First(p, m, color, -1, -1, 0, -1.0, Trace([], []), g);
    FirstShape(p, m, color, -1, -1, 0, -1.0, Trace([], []), g);
    (Walk(f.1, 0), f.1, f.2)
  }

  /** Without pruning, a side that has a move plays one of its stored moves first. */
  lemma BestTurnsLegal(p: Params, m: Matrix, color: bool, g: Gen)
    requires !p.pruning && MovesOk(m, g.turns, g.haveBeats) && |g.turns| > 0
    ensures BestTurns(p, m, color, g).0[0] in g.turns
  {
    FirstNonneg(p, m, color, -1, -1, 0, -1.0, Trace([], []), g);
  }

  /** Without pruning, a side that has a move scores the largest of its moves' values,
      and the turn it plays starts with the first stored move reaching that value; every
      earlier move has a strictly smaller value. */
  lemma BestTurnsBest(p: Params, m: Matrix, color: bool, g: Gen)
    requires !p.pruning && MovesOk(m, g.turns, g.haveBeats) && |g.turns| > 0
    ensures var vs := FirstValues(p, m, color, g.turns, g.haveBeats, 0, g).0;
      var k := ArgTop(-1.0, vs);
      && First(p, m, color, -1, -1, 0, -1.0, Trace([], []), g).0 == Top(-1.0, vs)
      && 0 <= k < |vs| && BestTurns(p, m, color, g).0[0] == g.turns[k]
      && (forall j | 0 <= j < |vs| :: vs[j] <= vs[k])
      && (forall j | 0 <= j < k :: vs[j] < vs[k])
  {
    var vs := FirstValues(p, m, color, g.turns, g.haveBeats, 0, g).0;
    FirstIsValue(p, m, color, -1, -1, 0, -1.0, Trace([], []), g);
    FirstRecords(p, m, color, -1, -1, 0, -1.0, Trace([], []), g);
    FirstNonneg(p, m, color, -1, -1, 0, -1.0, Trace([], []), g);
    TopIsMax(-1.0, vs);
  }
}
