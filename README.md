# Draughts rules engine, search and board history

This project models the core of a Russian-draughts game with a bot in Dafny and proves
properties of the model. It covers three parts:

- **Move generation** (`Logic::find_turns`): moves for one square and for one side,
  with mandatory capture and flying kings.
- **Applying and scoring** (`make_turn`, `calc_score`): the move applied to a board
  copy, and the material evaluator.
- **Search and board** (`find_best_turns_rec`, `find_first_best_turn`,
  `find_best_turns`; class `Board`): the bot's search with its quirky alpha-beta
  cutoff, the rebuild of the chosen turn from the state links, and the board with
  its undo history, highlight and active-cell state.

The board is an 8×8 matrix of cell codes:

| code | meaning |
|---|---|
| 0 | empty |
| 1 | white man |
| 2 | black man |
| 3 | white king |
| 4 | black king |

A piece's colour is the parity of its code.

The modules follow the source files:

- **`Moves`** (`Models/Move.h`): the `move_pos` value type and its comparisons.
- **`Cells`**: the matrix, cell update and counting.
- **`Evaluation`**: `make_turn`, `calc_score`.
- **`MoveGen`** and **`SideGen`**: the move lists `find_turns` builds, as recursive
  functions. Each list comes with a rule predicate that states the draughts rule
  directly. Lemmas prove that the list holds exactly the moves the rule allows.
- **`Search`**: the search as functions of the board, the configuration and the
  generator state, i.e. the `turns`, `have_beats` and random-engine fields that
  every `find_turns` call overwrites. A plain minimax is the reference definition.
  Without pruning, `find_first_best_turn` has a reference too. `FirstValue` gives the
  value of a state: the opponent's minimax score when the piece can capture no further,
  otherwise the largest of -1 and the values of the moves considered. A capture's value
  is its chain's value, and a plain move's value is the opponent's minimax score.
  `Top` and `ArgTop` fold these values with strict improvement, as the loop does.
- **`LogicEngine`**: class `Logic`, with the fields the source updates (`turns`,
  `haveBeats`, `maxDepth`, `nextMove`, `nextBestState`, the engine state). Its
  methods keep the source's loops. Each method is proved equal to the
  corresponding specification function.
- **`BoardState`**: class `Board`, with `mtx`, the two history stacks, the highlight
  matrix, the active cell and the game result.

A king capture may land on any empty square beyond the captured piece, up to the
next occupied square (`Game/Logic.h:292-306`). The model emits every one of them.

## Model

| member | source | states |
|---|---|---|
| Moves.Step | Models/Move.h:13-18 | The four-coordinate constructor stores the four coordinates, sets xb = yb = -1, and the move is not a capture |
| Moves.Jump | Models/Move.h:20-23 | The six-coordinate constructor stores all six coordinates unchanged |
| Moves.EqualIffEndpoints | Models/Move.h:26-29 | `==` holds exactly when x, y, x2 and y2 agree |
| Moves.EqualIgnoresCapture | Models/Move.h:26-29 | Two moves differing only in xb/yb compare equal, although they are different values |
| Moves.EqualIsEquivalence | Models/Move.h:26-29 | `==` is reflexive, symmetric and transitive |
| Moves.StepMatchesJump | Models/Move.h:16-23 | A step and a jump with the same endpoints compare equal |
| Moves.NotEqualIffEndpoints | Models/Move.h:31-34 | `!=` holds exactly when one of the four endpoint coordinates differs; unequal moves are different values |
| Evaluation.Promote | Game/Logic.h:46-47 | Promotion keeps the colour (parity) and never empties a cell |
| Evaluation.RemoveCaptured | Game/Logic.h:44-45 | For a capture the captured cell becomes 0; every other cell is unchanged |
| Evaluation.PromoteStart | Game/Logic.h:46-47 | The start cell gets the promoted code; every other cell is unchanged |
| Evaluation.Relocate | Game/Logic.h:48-49 | The start cell is 0, the destination holds the start cell's piece, every other cell is unchanged |
| Evaluation.MakeTurn | Game/Logic.h:42-52 | On the returned board: the source cell is 0, the captured cell is 0, the destination holds the promoted moving piece, every untouched cell is unchanged |
| Evaluation.MakeTurnPieces | Game/Logic.h:42-52 | On a legal move, a capture removes exactly one piece and a plain move none |
| Evaluation.Potential | Game/Logic.h:71-75 | The positional bonus is never negative |
| Evaluation.PotentialBounds | Game/Logic.h:71-75 | The positional bonus is at most 7 rows per man |
| Evaluation.MaterialBounds | Game/Logic.h:61-82 | Men count lies between the number of men and 1.35 times it; kings count exactly; a side's material is 0 exactly when it has no pieces |
| Evaluation.RatioBounds | Game/Logic.h:83-92 | With both sides present, the ratio lies strictly between 0 and INF |
| Evaluation.CalcScoreSentinels | Game/Logic.h:59-93 | INF when the opponent has no pieces (checked first); 0 when only the bot has none; strictly between otherwise |
| Evaluation.CalcScoreCounts | Game/Logic.h:59-93 | In counting mode with both sides present, the score is Weighted for the bot over Weighted for the opponent: men plus 4 × kings on each side |
| Evaluation.CountingMaterial | Game/Logic.h:61-77 | Without potential, a side's material is its count of men and of kings, and the two add up to its pieces |
| MoveGen.ManCaptureAtExact | Game/Logic.h:276-281 | A man's capture target (i, j) yields a move exactly when the rule allows landing there |
| MoveGen.ManCapturesExact | Game/Logic.h:269-284 | A man's captures are exactly the jumps of 2 onto an in-bounds empty square over an occupied opposite-colour midpoint |
| MoveGen.ManStepsExact | Game/Logic.h:320-332 | A man's simple moves are exactly one row forward (row-1 for white, row+1 for black) to column ±1, onto an in-bounds empty square |
| MoveGen.KingCaptureBlocked | Game/Logic.h:294-299 | A king ray blocked by a friendly piece or by the border before any enemy yields no capture |
| MoveGen.KingCaptureStops | Game/Logic.h:294-299 | After the captured piece, an occupied square ends the ray: no landing at or beyond it |
| MoveGen.KingRayBefore | Game/Logic.h:292-307 | Walking the ray before any piece produces exactly the rule's captures in that direction |
| MoveGen.KingRayAfter | Game/Logic.h:300-306 | Past the captured piece, the ray produces exactly the empty landing squares up to the next occupied square |
| MoveGen.KingCapturesExact | Game/Logic.h:285-310 | A king's captures: one diagonal, first occupied square is an enemy, landing on any empty square strictly beyond it before the next occupied square |
| MoveGen.KingSlideFrom | Game/Logic.h:339-344 | A slide ray produces exactly the empty squares before the first occupied one |
| MoveGen.KingSlidesExact | Game/Logic.h:333-347 | A king's simple moves are all empty squares on each diagonal before the first occupied one |
| MoveGen.CapturesExact | Game/Logic.h:267-311 | The capture list of a square holds exactly the moves the capture rule allows for its piece |
| MoveGen.SimplesExact | Game/Logic.h:318-348 | The simple-move list of a square holds exactly the moves the simple-move rule allows |
| MoveGen.CaptureRulePlayable | Game/Logic.h:281 | Every capture starts on the square, is a capture, and can be played (empty destination, occupied captured cell) |
| MoveGen.SimpleRulePlayable | Game/Logic.h:329 | Every simple move starts on the square, is not a capture, and can be played |
| MoveGen.SquareMovesRules | Game/Logic.h:261-349 | have_beats holds exactly when some capture exists; then the list is exactly the captures, otherwise exactly the simple moves |
| SideGen.SideScanCollects | Game/Logic.h:234-252 | The square-by-square scan with its reset-on-first-capture equals the collection of the rest of the board |
| SideGen.AllCapturesMember | Game/Logic.h:234-252 | The collected captures from square p on are exactly the captures of own pieces at p or later |
| SideGen.AllSimplesMember | Game/Logic.h:234-252 | The collected simple moves from square p on are exactly the simple moves of own pieces at p or later |
| SideGen.SideMovesPick | Game/Logic.h:230-256 | The side's list is all captures with have_beats true if there is any capture, otherwise all simple moves |
| SideGen.SideListsExact | Game/Logic.h:238-249 | A move is in the capture/simple list exactly when it belongs to a piece with code % 2 != color and follows that rule; every such move can be played |
| SideGen.SideMovesRules | Game/Logic.h:230-256 | Mandatory capture across the side: have_beats exactly when some own piece can capture; then exactly the captures, else exactly the simple moves |
| Search.SquareTurns | Game/Logic.h:261-349 | Per-square generation yields playable moves, captures exactly when have_beats is set |
| Search.SquareTurnsRules | Game/Logic.h:261-349 | For an occupied square: every move starts at (x, y), have_beats holds exactly when some capture rule applies there and then the list is nonempty, and the engine state is untouched |
| Search.SideTurns | Game/Logic.h:230-256 | Per-side generation yields playable moves, captures exactly when have_beats is set |
| Search.SideTurnsPermutes | Game/Logic.h:230-256 | The shuffled list is a permutation of the row-major collection, and have_beats is that collection's flag |
| Search.Turns | Game/Logic.h:160-165 | The search's generation step yields playable moves, captures exactly when have_beats |
| Search.CaptureShrinks | Game/Logic.h:185-191 | A capture removes a piece, so same-depth chain recursion terminates |
| Search.Minimax | Game/Logic.h:153-207 | Plain minimax with the source's leaf, no-move and chain rules; every score lies in [0, INF] |
| Search.RecIsMinimax | Game/Logic.h:153-208 | With optimisation "O0" the search is exactly plain minimax: max at odd depth, min at even depth |
| Search.RecLoopIsChildren | Game/Logic.h:182-207 | Without pruning the loop computes the max or min of the children's scores |
| Search.RecRange | Game/Logic.h:153-208 | Without pruning every score lies in [0, INF] |
| Search.First | Game/Logic.h:109-150 | The root explorer appends at least one state and leaves the earlier states' entries alone |
| Search.FirstLoop | Game/Logic.h:128-147 | The loop over the turns only grows the vectors and keeps every state before `state` |
| Search.FirstChild | Game/Logic.h:132-139 | A capture child appends states; a plain child leaves the vectors unchanged |
| Search.UpdateLinked | Game/Logic.h:144-145 | Recording a turn keeps every link well formed: links point forward, only after captures, to a move starting at the capture's landing square |
| Search.FirstShape | Game/Logic.h:109-150 | After the root explorer the links are well formed; at state 0 the recorded move is the placeholder or one of the precomputed turns |
| Search.FirstLoopShape | Game/Logic.h:128-147 | The loop keeps the links well formed, and the move at `state` stays as it was or becomes one of the turns |
| Search.FirstChildShape | Game/Logic.h:132-135 | A capture continuation's new state starts at the capture's landing square |
| Search.FirstNonneg | Game/Logic.h:109-150 | Without pruning, with at least one turn at the root, the best score is at least 0 and the recorded first move is one of the turns |
| Search.FirstLoopPicks | Game/Logic.h:128-147 | Without pruning the loop's result is at least the running best, and once any turn was scored the state holds one of the turns |
| Search.FirstChildNonneg | Game/Logic.h:132-139 | Without pruning a child's score is at least 0 |
| Search.TopIsMax | Game/Logic.h:142-146 | The strict-improvement fold from best is the maximum of best and the values. ArgTop is -1 exactly when no value exceeds best; otherwise it is the first index reaching the maximum, and every earlier value is strictly smaller |
| Search.FirstIsValue | Game/Logic.h:109-150 | Without pruning, whatever alpha and vectors it gets, the root explorer's score is the reference value of its state, and the generator ends as the reference leaves it |
| Search.FirstLoopScores | Game/Logic.h:128-147 | Without pruning the loop's best is the maximum of the running best and the children's reference values |
| Search.FirstChildIsValue | Game/Logic.h:132-139 | Without pruning a child's score is its reference value: the capture chain's value, or the opponent's minimax score after a plain move |
| Search.RecordBetter | Game/Logic.h:142-146 | When the first value beats best, the record over all the values is the record over the rest, started from that turn with that value as the best |
| Search.RecordKeep | Game/Logic.h:142 | When the first value does not beat best, the record over all the values is the record over the rest, with the same best and record |
| Search.FirstLoopRecord | Game/Logic.h:128-147 | Without pruning the move recorded at `state` is the turn at the first index whose value reaches the maximum, when some value beats the running best, and the earlier record otherwise |
| Search.FirstRecords | Game/Logic.h:109-150 | Without pruning, at the root or on a square that can capture again, the move recorded for the state is the first considered move whose value reaches the maximum over them, or the placeholder when none exceeds -1 |
| Search.Walk | Game/Logic.h:29-35 | Following the links yields a nonempty chain starting at the state's move in which each later move is preceded by a capture and starts on its landing square |
| Search.BestTurns | Game/Logic.h:22-37 | The rebuilt turn starts with the placeholder or one of the root turns, and it never mixes a simple move with captures |
| Search.BestTurnsLegal | Game/Logic.h:22-37 | Without pruning and with at least one root turn, the turn starts with one of the root turns |
| Search.BestTurnsBest | Game/Logic.h:22-37 | Without pruning and with at least one root turn, the root score is the largest of the root moves' values. The turn starts with the first root move reaching it, and every earlier root move has a strictly smaller value |
| LogicEngine.Logic.constructor | Game/Logic.h:14-20 | Stores board and configuration; seeds the engine from a parameter; empty turn list and state vectors; the potential flag holds exactly when the scoring mode is "NumberAndPotential", the pruning flag exactly when the optimization is not "O0" |
| LogicEngine.Logic.AddManCaptures | Game/Logic.h:272-283 | The nested loop appends exactly the man-capture list of the square |
| LogicEngine.Logic.AddManCaptureAt | Game/Logic.h:276-281 | One target square appends exactly its capture, if any |
| LogicEngine.Logic.AddKingCaptureRay | Game/Logic.h:291-307 | The ray loop appends exactly the king-capture list of one direction |
| LogicEngine.Logic.VisitCaptureRay | Game/Logic.h:294-306 | One ray square: either the ray stops (nothing more to append) or it appends the square's landing move and moves on |
| LogicEngine.Logic.AddKingCaptures | Game/Logic.h:287-309 | The four rays append exactly the king's capture list |
| LogicEngine.Logic.AddManSteps | Game/Logic.h:324-330 | The loop appends exactly the man's simple moves |
| LogicEngine.Logic.AddKingSlideRay | Game/Logic.h:339-344 | The ray loop appends exactly the slides of one direction |
| LogicEngine.Logic.AddKingSlides | Game/Logic.h:335-346 | The four rays append exactly the king's slide list |
| LogicEngine.Logic.FindSquareTurnsOn | Game/Logic.h:261-349 | The fields become the square's generation result: captures exactly when have_beats, otherwise the simple moves |
| LogicEngine.Logic.FindSideTurnsOn | Game/Logic.h:230-256 | The fields become the side's generation result: the shuffled collection and its have_beats flag |
| LogicEngine.Logic.CollectRow | Game/Logic.h:236-251 | One row of the scan advances the collection by the row's eight squares |
| LogicEngine.Logic.CollectSquare | Game/Logic.h:238-250 | One square: own pieces merge their moves with the reset-on-first-capture rule, others change nothing |
| LogicEngine.Logic.FindTurns | Game/Logic.h:214-217 | Side generation on the board's current matrix |
| LogicEngine.Logic.FindSquareTurns | Game/Logic.h:220-223 | Square generation on the board's current matrix |
| LogicEngine.Logic.SearchRec | Game/Logic.h:153-208 | The recursive search returns the score and leaves the generator fields as the specification function says |
| LogicEngine.Logic.NodeTurns | Game/Logic.h:160-165 | Generation from the chain square or for the whole side; the fields hold playable moves |
| LogicEngine.Logic.SearchLoop | Game/Logic.h:182-207 | The loop with the running min/max, alpha/beta and the cutoff equals the specification loop |
| LogicEngine.Logic.SearchStep | Game/Logic.h:182-201 | One loop iteration: the child's score, the running minimum and maximum, and alpha raised at odd depth or beta lowered at even depth, as the specification step |
| LogicEngine.Logic.SearchChild | Game/Logic.h:185-192 | A child is searched one ply deeper after a plain move and at the same depth from the landing square after a capture |
| LogicEngine.Logic.FirstBest | Game/Logic.h:109-150 | The root explorer's score, the state vectors and the generator fields equal the specification function's |
| LogicEngine.Logic.FirstBestLoop | Game/Logic.h:128-147 | The loop over the root turns equals the specification loop |
| LogicEngine.Logic.FirstBestStep | Game/Logic.h:129-146 | One root turn: score it, then record it if it beats the best |
| LogicEngine.Logic.RecordBest | Game/Logic.h:143-145 | next_move[state] becomes the turn and next_best_state[state] the link; every other entry is kept |
| LogicEngine.Logic.FirstBestChild | Game/Logic.h:132-139 | A root child continues the capture chain or hands over to the opponent's search |
| LogicEngine.Logic.FindBestTurns | Game/Logic.h:22-37 | The returned turn equals the specification's; it starts with the placeholder or one of the precomputed turns and is a capture chain. Without pruning and with a move, it starts with the first precomputed turn of largest value, and every earlier turn's value is strictly smaller |
| LogicEngine.Logic.FollowStates | Game/Logic.h:29-35 | The do-while walk returns exactly the chain of linked moves from state 0 |
| BoardState.Board.constructor | Game/Board.h:25-28 | An empty matrix, empty histories, nothing highlighted, no active cell, game in progress |
| BoardState.Board.AddHistory | Game/Board.h:256-260 | Pushes the matrix and the beat count, one each; the two stacks keep equal length |
| BoardState.Board.MovePieceAt | Game/Board.h:115-134 | Occupied destination or empty source: an error and nothing changes; otherwise the piece moves, promoted, and one snapshot with the beat count is pushed |
| BoardState.Board.MovePiece | Game/Board.h:104-111 | The captured cell is cleared first (even when the move then fails); on success the board is make_turn of the old board and one snapshot is pushed |
| BoardState.Board.DropPiece | Game/Board.h:137-141 | Exactly that cell becomes 0 |
| BoardState.Board.TurnIntoQueen | Game/Board.h:144-152 | Succeeds exactly on a man; then it adds 2 to that cell only, giving a king of the same colour; otherwise an error and nothing changes |
| BoardState.Board.GetBoard | Game/Board.h:155-158 | Returns the current matrix |
| BoardState.Board.HighlightCells | Game/Board.h:161-169 | A cell is highlighted afterwards exactly when it was before or is listed |
| BoardState.Board.ClearHighlight | Game/Board.h:172-179 | All 64 cells are unhighlighted; nothing else changes |
| BoardState.Board.SetActive | Game/Board.h:182-187 | The active cell is (x, y); nothing else changes |
| BoardState.Board.ClearActive | Game/Board.h:190-195 | The active cell is (-1, -1); nothing else changes |
| BoardState.Board.IsHighlighted | Game/Board.h:198-201 | Returns the cell's highlight flag |
| BoardState.Board.Rollback | Game/Board.h:205-216 | Pops max(1, last beat count) entries from both stacks, never below one; the matrix is the new last snapshot; no highlight, no active cell |
| BoardState.Popped | Game/Board.h:207-212 | The number of entries popped is at most max(1, last count) and at most n - 1, and equals one of the two. So a history of one entry is never popped |
| BoardState.Board.MakeStartMtx | Game/Board.h:264-278 | The matrix becomes the start position and one snapshot with beat count 0 is pushed |
| BoardState.StartSquares | Game/Board.h:266-276 | In the start position, pieces stand only where (i + j) is odd: black men on rows 0-2, white men on rows 5-7 |
| BoardState.StartPieces | Game/Board.h:264-278 | The start position has 12 white men, 12 black men and no kings |
| BoardState.Board.Redraw | Game/Board.h:92-100 | Game in progress, the start position, exactly one history entry, nothing highlighted or active |

## Left out

- Rendering, windowing and textures in `Game/Board.h` are not modelled: `start_draw`, `rerender` (a no-op here), `show_final`, `quit`, `reset_window_size`, the texture paths and the exception log. They are SDL output.
- `Game/Hand.h` and the game loop in `Game/Game.h` are not part of this model. They handle user input, threads, delays and timing logs.
- The configuration file (`Game/Config.h`, JSON) is not read. The search depth, the scoring mode ("NumberAndPotential" or not) and whether optimisation is "O0" are parameters.
- The random engine and its time-based seed are not modelled. The seed is a constructor parameter. `std::shuffle` is any function that returns a permutation of its list together with the engine's next state, so only multiset equality is known about the shuffled order.
- Scores are exact reals. IEEE double rounding of the 0.05 bonus and of the division is not modelled, and INF is the constant 1e9.
- Coordinates are unbounded integers. The source's `int8_t` coordinates never leave -2..9 in the code paths modelled, so no wrap-around arises.
- The private overload `find_best_turns(mtx, color)` (`Game/Logic.h:96-106`) is not modelled because nothing calls it.
- LogicEngine.Logic.FindSquareTurnsOn: requires a non-empty start square. The source would treat an empty square as a king there.
- LogicEngine.Logic.FindBestTurns: requires every move in `turns` to be playable on the current board, and to be a capture exactly when `have_beats` is set. This holds after `find_turns(color)`, which the game loop calls before `find_best_turns` (`Game/Game.h:42`).
- Search.BestTurnsBest: the best-move property is proved only without pruning (optimisation "O0"). With pruning each root child is searched with the best score so far as alpha, and a cut-off child returns max+1 or min-1, so its score is not its minimax value. There the root is characterised only by `Search.First`.
- Search.RecIsMinimax: the pruned search (optimisation other than "O0") is characterised only by the specification function `Search.Rec`. No lemma relates its result to minimax, because the cutoff returns max+1 or min-1 rather than a bound.
- BoardState.Board.Rollback: requires a non-empty history whose two stacks have equal length. The source dereferences the last beat count, which is undefined on an empty history; every other method keeps the lengths equal.
- BoardState.Board.HighlightCells: requires the listed cells to be on the board. The source indexes the matrix without a check.
- LogicEngine.Logic: `maxDepth` is a natural number and is set directly. The source keeps it in a public `int` that the game code assigns from the configuration.
