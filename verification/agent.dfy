/** `MinimaxAgent` (games/connect_four/agent.h): a fixed-depth negamax with a
    fail-hard alpha-beta window and principal-variation null-window probes,
    run on the one shared board, which every branch pushes into and pops back
    out of. The board is threaded through the model as a value; the member
    `_column` becomes a parameter that comes back as a result. The tie test
    is a parameter too: `is_tie` as written, or the corrected one. */
module Agent {
  import opened Words
  import opened BoardState
  import opened BoardInvariants
  import opened Winner
  import opened Scoring
  import opened Trace
  import opened Options

  /** Plies searched below the root. */
  const MAX_DEPTH: nat := 10

  /** `next_move` opens the search with the window (-1e9, 1e9). */
  const ROOT_ALPHA: int := -1_000_000_000
  const ROOT_BETA: int := 1_000_000_000

  /** The columns in the order the `distance` loops try them. */
  const ORDER: seq<nat> := [3, 2, 4, 1, 5, 0, 6]

  /** How far a column is from the centre column. */
  function Distance(column: nat): (d: nat)
  {
    if column <= COLUMNS / 2 then COLUMNS / 2 - column else column - COLUMNS / 2
  }

  /** The value of a position where the player who just moved has won, for
      the player to move at `depth` plies left. The nearer the root (the
      larger `depth`), the lower: a quicker win is preferred by the winner. */
  function TerminalLoss(depth: nat): (v: int)
    requires depth <= MAX_DEPTH
    ensures -(ROWS * COLUMNS) <= v <= -(ROWS * COLUMNS) + MAX_DEPTH
  {
    -(ROWS * COLUMNS + depth - MAX_DEPTH)
  }

  /** A win found nearer the root, with more plies left, scores lower for
      the loser. */
  lemma TerminalLossOrder(fewerLeft: nat, moreLeft: nat)
    requires fewerLeft < moreLeft <= MAX_DEPTH
    ensures TerminalLoss(moreLeft) < TerminalLoss(fewerLeft)
  {
  }

  /** The nested `distance` / `column` loops of `principal_variation`. */
  method CenterOut() returns (order: seq<nat>)
    ensures order == ORDER
    ensures |order| == COLUMNS
    ensures forall c :: 0 <= c < COLUMNS ==> c in order
    ensures forall i, j :: 0 <= i < j < |order| ==> order[i] != order[j]
    ensures forall i, j :: 0 <= i < j < |order| ==> Distance(order[i]) <= Distance(order[j])
  {
    order := [];
    var distance := 0;
    while distance <= COLUMNS / 2
      invariant distance <= COLUMNS / 2 + 1
      invariant order == ORDER[..if distance == 0 then 0 else 2 * distance - 1]
    {
      var column := COLUMNS / 2 - distance;
      while column <= COLUMNS / 2 + distance
        invariant column == COLUMNS / 2 - distance ==> order == ORDER[..if distance == 0 then 0 else 2 * distance - 1]
        invariant column != COLUMNS / 2 - distance ==> distance > 0 || column > COLUMNS / 2 + distance
        invariant distance > 0 && column == COLUMNS / 2 + distance ==> order == ORDER[..2 * distance]
        invariant column > COLUMNS / 2 + distance ==> order == ORDER[..2 * distance + 1]
        invariant column == COLUMNS / 2 - distance || column == COLUMNS / 2 + distance || column > COLUMNS / 2 + distance
      {
        order := order + [column];
        column := column + if distance == 0 then 1 else 2 * distance;
      }
      distance := distance + 1;
    }
  }

  // ---- the value the search computes ------------------------------------------

  /** The windows the search is called with: inside the root window. */
  predicate Window(alpha: int, beta: int)
  {
    ROOT_ALPHA <= alpha < beta <= ROOT_BETA
  }

  /** The value of a position that is neither won nor tied but has no free
      column. The column loop then pushes nothing and the search returns
      `alpha`, whatever the window; that is a fail-hard bound of a value at
      or below every `alpha` in a `Window`, that is, of `ROOT_ALPHA`. */
  const NO_MOVE: int := ROOT_ALPHA

  /** Depth-limited negamax without pruning: the value of `b` for the player
      to move, with the same terminal tests, in the same order, as
      `principal_variation`, and the tie test `rule`. It stays inside the
      root window. */
  function Negamax(rule: TieRule, b: Board, depth: nat): (v: int)
    requires WellFormed(b) && depth <= MAX_DEPTH
    ensures ROOT_ALPHA <= v <= ROOT_BETA
    decreases depth, 1, 0
  {
    if HasWinner(b) then TerminalLoss(depth)
    else if Tied(rule, b) then 0
    else if depth == 0 then Heuristic(b)
    else
      match Best(rule, b, depth, |ORDER|)
      case None => NO_MOVE
      case Some(v) => v
  }

  /** The best child value among the first `k` columns of `ORDER`, keeping
      the earliest on equal values. */
  function Best(rule: TieRule, b: Board, depth: nat, k: nat): (r: Option<int>)
    requires WellFormed(b) && 0 < depth <= MAX_DEPTH && k <= |ORDER|
    ensures r.Some? ==> ROOT_ALPHA <= r.value <= ROOT_BETA
    decreases depth, 0, k
  {
    if k == 0 then None
    else
      var rest := Best(rule, b, depth, k - 1);
      var c := ORDER[k - 1];
      if !CanPush(b, c) then rest
      else Keep(rest, -Negamax(rule, Push(b, c), depth - 1))
  }

  /** The better of the best value so far and a new child value `w`; the
      earlier one on a tie. */
  function Keep(seen: Option<int>, w: int): (r: Option<int>)
    ensures r.Some? && (seen.Some? ==> seen.value <= r.value) && w <= r.value
    ensures r == seen || r == Some(w)
  {
    if seen.Some? && w <= seen.value then seen else Some(w)
  }

  /** What a window search promises about the exact value: inside the
      window it is exact; at or below `alpha` it is an upper bound; at or
      above `beta` it is a lower bound. */
  predicate Bounded(value: int, exact: int, alpha: int, beta: int)
  {
    && (alpha < value < beta ==> value == exact)
    && (value <= alpha ==> exact <= value)
    && (beta <= value ==> value <= exact)
  }

  /** The first position in `ORDER`, from `j` on, of a column that accepts a
      stone; `|ORDER|` when there is none. */
  function FirstOpen(b: Board, j: nat): (i: nat)
    requires |b.remaining| == COLUMNS && j <= |ORDER|
    ensures j <= i <= |ORDER|
    ensures i < |ORDER| ==> CanPush(b, ORDER[i])
    ensures forall m :: j <= m < i ==> !CanPush(b, ORDER[m])
    decreases |ORDER| - j
  {
    if j == |ORDER| || CanPush(b, ORDER[j]) then j else FirstOpen(b, j + 1)
  }

  // ---- facts about the reference value ----------------------------------------

  /** Every column is tried. */
  lemma OrderCovers(column: nat) returns (k: nat)
    requires column < COLUMNS
    ensures k < |ORDER| && ORDER[k] == column
  {
    k := if column == 3 then 0 else if column == 2 then 1 else if column == 4 then 2
      else if column == 1 then 3 else if column == 5 then 4 else if column == 0 then 5 else 6;
  }

  /** No column of `ORDER` is open exactly when no column of the board is. */
  lemma FirstOpenNone(b: Board)
    requires |b.remaining| == COLUMNS
    ensures FirstOpen(b, 0) == |ORDER| <==> forall c :: 0 <= c < COLUMNS ==> !CanPush(b, c)
  {
    if FirstOpen(b, 0) == |ORDER| {
      forall c | 0 <= c < COLUMNS
        ensures !CanPush(b, c)
      {
        var k := OrderCovers(c);
      }
    }
  }

  /** Once a pushable column has been seen, there is a best value, and it
      only grows as more columns are seen. */
  lemma {:induction false} BestGrows(rule: TieRule, b: Board, depth: nat, k: nat, m: nat)
    requires WellFormed(b) && 0 < depth <= MAX_DEPTH && k <= m <= |ORDER|
    ensures Best(rule, b, depth, k).Some? ==>
      Best(rule, b, depth, m).Some? && Best(rule, b, depth, k).value <= Best(rule, b, depth, m).value
    decreases m - k
  {
    if k < m {
      BestGrows(rule, b, depth, k, m - 1);
      if CanPush(b, ORDER[m - 1]) {
        BestTake(rule, b, depth, m - 1);
      } else {
        BestSkip(rule, b, depth, m - 1);
      }
    }
  }

  /** No open column among the first `k`, no best value. */
  lemma {:induction false} BestNone(rule: TieRule, b: Board, depth: nat, k: nat)
    requires WellFormed(b) && 0 < depth <= MAX_DEPTH && k <= |ORDER|
    ensures (forall m :: 0 <= m < k ==> !CanPush(b, ORDER[m])) ==> Best(rule, b, depth, k).None?
    decreases k
  {
    if k > 0 {
      BestNone(rule, b, depth, k - 1);
      if !CanPush(b, ORDER[k - 1]) {
        BestSkip(rule, b, depth, k - 1);
      }
    }
  }

  /** There is a best child exactly when some column accepts a stone, under
      either tie test. */
  lemma HasBest(rule: TieRule, b: Board, depth: nat)
    requires WellFormed(b) && 0 < depth <= MAX_DEPTH
    ensures Best(rule, b, depth, |ORDER|).Some? <==> exists c :: 0 <= c < COLUMNS && CanPush(b, c)
  {
    BestNone(rule, b, depth, |ORDER|);
    if exists c :: 0 <= c < COLUMNS && CanPush(b, c) {
      var c :| 0 <= c < COLUMNS && CanPush(b, c);
      var k := OrderCovers(c);
      assert Best(rule, b, depth, k + 1).Some?;
      BestGrows(rule, b, depth, k + 1, |ORDER|);
    }
  }

  /** The reference value of a non-terminal position is at least every
      child's, which is what a beta cutoff relies on. */
  lemma ChildAtMost(rule: TieRule, b: Board, depth: nat, k: nat)
    requires WellFormed(b) && 0 < depth <= MAX_DEPTH && !HasWinner(b) && !Tied(rule, b)
    requires k < |ORDER| && CanPush(b, ORDER[k])
    ensures -Negamax(rule, Push(b, ORDER[k]), depth - 1) <= Negamax(rule, b, depth)
  {
    assert Best(rule, b, depth, k + 1).Some?;
    BestGrows(rule, b, depth, k + 1, |ORDER|);
  }

  /** A full column leaves the best value seen unchanged. */
  lemma BestSkip(rule: TieRule, b: Board, depth: nat, k: nat)
    requires WellFormed(b) && 0 < depth <= MAX_DEPTH && k < |ORDER| && !CanPush(b, ORDER[k])
    ensures Best(rule, b, depth, k + 1) == Best(rule, b, depth, k)
  {
  }

  /** A pushable column replaces the best value seen only when it is
      strictly better. */
  lemma BestTake(rule: TieRule, b: Board, depth: nat, k: nat)
    requires WellFormed(b) && 0 < depth <= MAX_DEPTH && k < |ORDER| && CanPush(b, ORDER[k])
    ensures Best(rule, b, depth, k + 1) == Keep(Best(rule, b, depth, k), -Negamax(rule, Push(b, ORDER[k]), depth - 1))
  {
  }

  // ---- the two tie tests --------------------------------------------------------

  /** With the corrected tie test, every reachable position has a value
      within the bound of `score()`: a position that is not tied always has a
      move. */
  lemma {:induction false} NegamaxCorrectedBound(b: Board, depth: nat)
    requires Counted(b) && depth <= MAX_DEPTH
    ensures -SCORE_BOUND <= Negamax(Corrected, b, depth) <= SCORE_BOUND
    decreases depth, 2, 0
  {
    if !HasWinner(b) && !IsTie(b) && depth > 0 {
      IsTieIffFull(b);
      HasBest(Corrected, b, depth);
      BestCorrectedBound(b, depth, |ORDER|);
    }
  }

  lemma {:induction false} BestCorrectedBound(b: Board, depth: nat, k: nat)
    requires Counted(b) && 0 < depth <= MAX_DEPTH && k <= |ORDER|
    ensures Best(Corrected, b, depth, k).Some? ==> -SCORE_BOUND <= Best(Corrected, b, depth, k).value <= SCORE_BOUND
    decreases depth, 1, k
  {
    if k > 0 {
      BestCorrectedBound(b, depth, k - 1);
      StepCorrectedBound(b, depth, k - 1);
    }
  }

  lemma {:induction false} StepCorrectedBound(b: Board, depth: nat, k: nat)
    requires Counted(b) && 0 < depth <= MAX_DEPTH && k < |ORDER|
    requires Best(Corrected, b, depth, k).Some? ==> -SCORE_BOUND <= Best(Corrected, b, depth, k).value <= SCORE_BOUND
    ensures Best(Corrected, b, depth, k + 1).Some? ==> -SCORE_BOUND <= Best(Corrected, b, depth, k + 1).value <= SCORE_BOUND
    decreases depth, 0, 1
  {
    if CanPush(b, ORDER[k]) {
      BestTake(Corrected, b, depth, k);
      ChildCorrectedBound(b, depth, ORDER[k]);
    } else {
      BestSkip(Corrected, b, depth, k);
    }
  }

  lemma {:induction false} ChildCorrectedBound(b: Board, depth: nat, c: nat)
    requires Counted(b) && 0 < depth <= MAX_DEPTH && CanPush(b, c)
    ensures -SCORE_BOUND <= -Negamax(Corrected, Push(b, c), depth - 1) <= SCORE_BOUND
    decreases depth, 0, 0
  {
    PushCounted(b, c);
    NegamaxCorrectedBound(Push(b, c), depth - 1);
  }

  /** While no line of the search can reach a full board, the tie test as
      written and the corrected one give the same value. */
  lemma {:induction false} RulesAgree(b: Board, depth: nat)
    requires WellFormed(b) && depth <= MAX_DEPTH && b.movesPlayed + depth < ROWS * COLUMNS
    ensures Negamax(AsWritten, b, depth) == Negamax(Corrected, b, depth)
    decreases depth, 2, 0
  {
    if depth > 0 {
      BestAgree(b, depth, |ORDER|);
    }
  }

  lemma {:induction false} BestAgree(b: Board, depth: nat, k: nat)
    requires WellFormed(b) && 0 < depth <= MAX_DEPTH && k <= |ORDER| && b.movesPlayed + depth < ROWS * COLUMNS
    ensures Best(AsWritten, b, depth, k) == Best(Corrected, b, depth, k)
    decreases depth, 1, k
  {
    if k > 0 {
      BestAgree(b, depth, k - 1);
      StepAgree(b, depth, k - 1);
    }
  }

  lemma {:induction false} StepAgree(b: Board, depth: nat, k: nat)
    requires WellFormed(b) && 0 < depth <= MAX_DEPTH && k < |ORDER| && b.movesPlayed + depth < ROWS * COLUMNS
    requires Best(AsWritten, b, depth, k) == Best(Corrected, b, depth, k)
    ensures Best(AsWritten, b, depth, k + 1) == Best(Corrected, b, depth, k + 1)
    decreases depth, 0, 1
  {
    if CanPush(b, ORDER[k]) {
      BestTake(AsWritten, b, depth, k);
      BestTake(Corrected, b, depth, k);
      ChildAgree(b, depth, ORDER[k]);
    } else {
      BestSkip(AsWritten, b, depth, k);
      BestSkip(Corrected, b, depth, k);
    }
  }

  lemma {:induction false} ChildAgree(b: Board, depth: nat, c: nat)
    requires WellFormed(b) && 0 < depth <= MAX_DEPTH && CanPush(b, c) && b.movesPlayed + depth < ROWS * COLUMNS
    ensures Negamax(AsWritten, Push(b, c), depth - 1) == Negamax(Corrected, Push(b, c), depth - 1)
    decreases depth, 0, 0
  {
    RulesAgree(Push(b, c), depth - 1);
  }

  /** On a full board without a winner the two tests part: the corrected
      one scores the draw 0, while as written the search finds no column and
      its value is `NO_MOVE`, so the parent sees `-NO_MOVE = ROOT_BETA`. */
  lemma FullBoardValues(b: Board, depth: nat)
    requires Valid(b) && IsTie(b) && !HasWinner(b) && 0 < depth <= MAX_DEPTH
    ensures Negamax(Corrected, b, depth) == 0
    ensures Negamax(AsWritten, b, depth) == NO_MOVE
  {
    IsTieAsWrittenNeverHolds(b);
    IsTieIffFull(b);
    HasBest(AsWritten, b, depth);
  }

  // ---- the search ---------------------------------------------------------------

  /** What the parent learns about a child of reference value `exact`
      from the child's search returning `-score` on the window
      `(-beta, -alpha)`: inside `(alpha, beta)` the score is exact, at or
      below `alpha` it bounds the child from above, at or above `beta` from
      below. */
  predicate ChildWindow(score: int, exact: int, alpha: int, beta: int)
  {
    var w := -exact;
    && (alpha < score < beta ==> score == w)
    && (score <= alpha ==> w <= alpha)
    && (beta <= score ==> beta <= w)
  }

  /** The search of an already pushed child once `solved`: a null-window
      probe `(-alpha - 1, -alpha)`, re-searched with the full window
      `(-beta, -alpha)` only when the probe lands strictly inside
      `(alpha, beta)`. */
  method ProbeChild(rule: TieRule, child: Board, alpha: int, beta: int, depth: nat, current: nat)
    returns (score: int, after: Board, trace: seq<Op>)
    requires Valid(child) && depth < MAX_DEPTH && Window(alpha, beta)
    ensures after == child
    ensures Disciplined(trace, depth) && Replay(child, trace) == Some(child)
    ensures ChildWindow(score, Negamax(rule, child, depth), alpha, beta)
    decreases depth + 1, 0
  {
    var v, chosen;
    v, chosen, after, trace := PrincipalVariation(rule, child, -alpha - 1, -alpha, depth, current);
    score := -v;
    if alpha < score && beta > score {
      var t2;
      v, chosen, after, t2 := PrincipalVariation(rule, after, -beta, -alpha, depth, current);
      score := -v;
      DisciplinedConcat(trace, t2, depth);
      ReplayConcat(child, trace, t2);
      trace := trace + t2;
    }
  }

  /** The search of an already pushed child before `solved`: the full
      window `(-beta, -alpha)`. */
  method FullChild(rule: TieRule, child: Board, alpha: int, beta: int, depth: nat, current: nat)
    returns (score: int, after: Board, trace: seq<Op>)
    requires Valid(child) && depth < MAX_DEPTH && Window(alpha, beta)
    ensures after == child
    ensures Disciplined(trace, depth) && Replay(child, trace) == Some(child)
    ensures ChildWindow(score, Negamax(rule, child, depth), alpha, beta)
    decreases depth + 1, 0
  {
    var v, chosen;
    v, chosen, after, trace := PrincipalVariation(rule, child, -beta, -alpha, depth, current);
    score := -v;
  }

  /** The `pop` that ends an iteration of the column loop: undoing the
      push of `column` gives back the board before it. */
  method PopChild(b: Board, column: nat, board: Board) returns (after: Board)
    requires Valid(b) && CanPush(b, column) && board == Push(b, column)
    ensures after == b
  {
    PopAfterPushValid(b, column);
    after := Pop(board, column);
  }

  /** One iteration of the column loop: push `column`, search the child
      (a null-window probe first once `solved`, a full-window search
      otherwise), pop. */
  method SearchChild(rule: TieRule, b: Board, column: nat, alpha: int, beta: int, depth: nat, solved: bool, current: nat)
    returns (score: int, after: Board, trace: seq<Op>)
    requires Valid(b) && CanPush(b, column) && 0 < depth <= MAX_DEPTH && Window(alpha, beta)
    ensures after == b
    ensures |trace| >= 2 && trace[0] == PushOp(column) && trace[|trace| - 1] == PopOp(column)
    ensures Disciplined(trace, depth) && Replay(b, trace) == Some(b)
    ensures ChildWindow(score, Negamax(rule, Push(b, column), depth - 1), alpha, beta)
    decreases depth, 1
  {
    PushValid(b, column);
    var child := Push(b, column);
    var board, t;
    if solved {
      score, board, t := ProbeChild(rule, child, alpha, beta, depth - 1, current);
    } else {
      score, board, t := FullChild(rule, child, alpha, beta, depth - 1, current);
    }
    after := PopChild(b, column, board);
    DisciplinedBracket(column, t, depth);
    ReplayBracket(b, column, t);
    trace := Bracket(column, t);
  }

  /** The state of the column loop of `principal_variation` after the
      first `k` columns of `ORDER`: `alpha` has only risen, and only to the
      best child value seen, strictly below `beta`; `solved` records that it
      rose; `_column` changes only at the root, to a pushable column whose
      child's value lies strictly inside the window. */
  predicate Progress(rule: TieRule, b: Board, alpha: int, beta: int, depth: nat, current: nat,
                     k: nat, a: int, solved: bool, chosen: nat)
    requires WellFormed(b) && 0 < depth <= MAX_DEPTH && k <= |ORDER|
  {
    && alpha <= a < beta
    && (solved <==> alpha < a)
    && (!solved ==> Best(rule, b, depth, k).None? || Best(rule, b, depth, k).value <= alpha)
    && (solved ==> Best(rule, b, depth, k) == Some(a))
    && (chosen != current ==>
          depth == MAX_DEPTH && CanPush(b, chosen) && alpha < -Negamax(rule, Push(b, chosen), depth - 1) < beta)
    && (depth == MAX_DEPTH && solved ==> CanPush(b, chosen) && -Negamax(rule, Push(b, chosen), depth - 1) == a)
  }

  /** A child searched without a cutoff moves the loop on to the next
      column: alpha rises to a child score strictly inside the window, and
      at the root `_column` follows it. */
  lemma Advance(rule: TieRule, b: Board, alpha: int, beta: int, depth: nat, current: nat,
                k: nat, a: int, solved: bool, chosen: nat, score: int)
    requires WellFormed(b) && 0 < depth <= MAX_DEPTH && k < |ORDER| && CanPush(b, ORDER[k])
    requires Progress(rule, b, alpha, beta, depth, current, k, a, solved, chosen)
    requires ChildWindow(score, Negamax(rule, Push(b, ORDER[k]), depth - 1), a, beta) && score < beta
    ensures a < score ==>
      Progress(rule, b, alpha, beta, depth, current, k + 1, score, true, if depth == MAX_DEPTH then ORDER[k] else chosen)
    ensures score <= a ==> Progress(rule, b, alpha, beta, depth, current, k + 1, a, solved, chosen)
  {
    BestTake(rule, b, depth, k);
  }

  /** One pass of the column loop for a pushable `ORDER[k]`: search it, and
      report a beta cutoff or raise alpha. */
  method SearchColumn(rule: TieRule, b: Board, alpha: int, beta: int, depth: nat, current: nat,
                      k: nat, a: int, solved: bool, chosen: nat)
    returns (cutoff: bool, a': int, solved': bool, chosen': nat, after: Board, trace: seq<Op>)
    requires Valid(b) && 0 < depth <= MAX_DEPTH && k < |ORDER| && !HasWinner(b) && !Tied(rule, b)
    requires CanPush(b, ORDER[k]) && Window(alpha, beta)
    requires Progress(rule, b, alpha, beta, depth, current, k, a, solved, chosen)
    ensures after == b
    ensures |trace| >= 2 && trace[0] == PushOp(ORDER[k])
    ensures Disciplined(trace, depth) && Replay(b, trace) == Some(b)
    ensures cutoff ==> beta <= Negamax(rule, b, depth) && chosen' == chosen
    ensures !cutoff ==> Progress(rule, b, alpha, beta, depth, current, k + 1, a', solved', chosen')
    decreases depth, 2
  {
    cutoff, a', solved', chosen' := false, a, solved, chosen;
    var column := ORDER[k];
    var score;
    score, after, trace := SearchChild(rule, b, column, a, beta, depth, solved, chosen);
    if beta <= score {
      ChildAtMost(rule, b, depth, k);
      cutoff := true;
      return;
    }
    Advance(rule, b, alpha, beta, depth, current, k, a, solved, chosen, score);
    if a < score {
      a', solved' := score, true;
      if depth == MAX_DEPTH {
        chosen' := column;
      }
    }
  }

  /** One pass of the column loop for `ORDER[k]`: skip it, touching nothing,
      when it is full, otherwise search it. */
  method TryColumn(rule: TieRule, b: Board, alpha: int, beta: int, depth: nat, current: nat,
                   k: nat, a: int, solved: bool, chosen: nat)
    returns (cutoff: bool, a': int, solved': bool, chosen': nat, after: Board, trace: seq<Op>)
    requires Valid(b) && 0 < depth <= MAX_DEPTH && k < |ORDER| && !HasWinner(b) && !Tied(rule, b)
    requires Window(alpha, beta)
    requires Progress(rule, b, alpha, beta, depth, current, k, a, solved, chosen)
    ensures after == b
    ensures trace == [] <==> !CanPush(b, ORDER[k])
    ensures trace != [] ==> trace[0] == PushOp(ORDER[k])
    ensures Disciplined(trace, depth) && Replay(b, trace) == Some(b)
    ensures cutoff ==> CanPush(b, ORDER[k]) && beta <= Negamax(rule, b, depth) && chosen' == chosen
    ensures !cutoff ==> Progress(rule, b, alpha, beta, depth, current, k + 1, a', solved', chosen')
    decreases depth, 3
  {
    if !CanPush(b, ORDER[k]) {
      BestSkip(rule, b, depth, k);
      return false, a, solved, chosen, b, [];
    }
    cutoff, a', solved', chosen', after, trace := SearchColumn(rule, b, alpha, beta, depth, current, k, a, solved, chosen);
  }

  /** `principal_variation(alpha, beta, depth)` on board `b` with the tie
      test `rule`, and `current` the agent's `_column` on entry; returns the
      value, `_column` on exit, the board as left, and the pushes and pops
      made on it. */
  method PrincipalVariation(rule: TieRule, b: Board, alpha: int, beta: int, depth: nat, current: nat)
    returns (value: int, chosen: nat, after: Board, trace: seq<Op>)
    requires Valid(b) && depth <= MAX_DEPTH && Window(alpha, beta)
    ensures after == b
    ensures Disciplined(trace, depth) && Replay(b, trace) == Some(b)
    ensures HasWinner(b) || Tied(rule, b) || depth == 0 ==> trace == []
    ensures !HasWinner(b) && !Tied(rule, b) && depth > 0 ==>
      (trace == [] <==> FirstOpen(b, 0) == |ORDER|)
    ensures !HasWinner(b) && !Tied(rule, b) && depth > 0 && trace != [] ==>
      FirstOpen(b, 0) < |ORDER| && trace[0] == PushOp(ORDER[FirstOpen(b, 0)])
    ensures Bounded(value, Negamax(rule, b, depth), alpha, beta)
    ensures HasWinner(b) ==> value == TerminalLoss(depth)
    ensures !HasWinner(b) && Tied(rule, b) ==> value == 0
    ensures !HasWinner(b) && !Tied(rule, b) && depth == 0 ==> value == Heuristic(b)
    ensures !HasWinner(b) && !Tied(rule, b) && depth > 0 ==> alpha <= value <= beta
    ensures !HasWinner(b) && !Tied(rule, b) && depth > 0 && FirstOpen(b, 0) == |ORDER| ==> value == alpha
    ensures chosen != current ==>
      depth == MAX_DEPTH && CanPush(b, chosen) && alpha < -Negamax(rule, Push(b, chosen), depth - 1) < beta
    ensures depth == MAX_DEPTH && !HasWinner(b) && !Tied(rule, b) && alpha < value < beta ==>
      CanPush(b, chosen) && -Negamax(rule, Push(b, chosen), depth - 1) == value
    decreases depth, 5
  {
    chosen, after, trace := current, b, [];
    var isWinner := DetectWinner(b);
    if isWinner {
      return TerminalLoss(depth), chosen, after, trace;
    }
    if Tied(rule, b) {
      return 0, chosen, after, trace;
    }
    if depth == 0 {
      value := Score(b);
      return value, chosen, after, trace;
    }
    value, chosen, after, trace := ColumnLoop(rule, b, alpha, beta, depth, current);
  }

  /** The pushes and pops of the column loop after the first `k` columns of
      `ORDER`: a disciplined trace that leaves `b` as it was, empty until the
      first open column, which it starts with. */
  predicate Searched(b: Board, trace: seq<Op>, depth: nat, k: nat)
    requires |b.remaining| == COLUMNS && k <= |ORDER|
  {
    && Disciplined(trace, depth) && Replay(b, trace) == Some(b)
    && (trace == [] <==> FirstOpen(b, 0) >= k)
    && (trace != [] ==> FirstOpen(b, 0) < k && trace[0] == PushOp(ORDER[FirstOpen(b, 0)]))
  }

  /** Appending one column's pushes and pops keeps `Searched`. */
  lemma SearchedStep(b: Board, trace: seq<Op>, t: seq<Op>, depth: nat, k: nat)
    requires |b.remaining| == COLUMNS && k < |ORDER|
    requires Searched(b, trace, depth, k)
    requires Disciplined(t, depth) && Replay(b, t) == Some(b)
    requires t == [] <==> !CanPush(b, ORDER[k])
    requires t != [] ==> t[0] == PushOp(ORDER[k])
    ensures Searched(b, trace + t, depth, k + 1)
  {
    DisciplinedConcat(trace, t, depth);
    ReplayConcat(b, trace, t);
    if trace == [] {
      assert trace + t == t;
    } else {
      assert (trace + t)[0] == trace[0];
    }
  }

  /** The column loop ran to its end without a cutoff: the raised `alpha`
      is the fail-hard value, and it stays `alpha` when no column was open. */
  lemma LoopEnd(rule: TieRule, b: Board, alpha: int, beta: int, depth: nat, current: nat,
                a: int, solved: bool, chosen: nat, trace: seq<Op>)
    requires WellFormed(b) && 0 < depth <= MAX_DEPTH && !HasWinner(b) && !Tied(rule, b) && Window(alpha, beta)
    requires Progress(rule, b, alpha, beta, depth, current, |ORDER|, a, solved, chosen)
    requires Searched(b, trace, depth, |ORDER|)
    ensures Bounded(a, Negamax(rule, b, depth), alpha, beta)
    ensures trace == [] <==> FirstOpen(b, 0) == |ORDER|
    ensures FirstOpen(b, 0) == |ORDER| ==> a == alpha
  {
    BestNone(rule, b, depth, |ORDER|);
    var best := Best(rule, b, depth, |ORDER|);
    assert Negamax(rule, b, depth) == if best.None? then NO_MOVE else best.value;
  }

  /** The column loop of `principal_variation`, on a position that is
      neither won nor tied, with depth left: every column of `ORDER` in
      turn, until a beta cutoff. */
  method ColumnLoop(rule: TieRule, b: Board, alpha: int, beta: int, depth: nat, current: nat)
    returns (value: int, chosen: nat, after: Board, trace: seq<Op>)
    requires Valid(b) && 0 < depth <= MAX_DEPTH && Window(alpha, beta) && !HasWinner(b) && !Tied(rule, b)
    ensures after == b
    ensures Disciplined(trace, depth) && Replay(b, trace) == Some(b)
    ensures trace == [] <==> FirstOpen(b, 0) == |ORDER|
    ensures trace != [] ==> FirstOpen(b, 0) < |ORDER| && trace[0] == PushOp(ORDER[FirstOpen(b, 0)])
    ensures Bounded(value, Negamax(rule, b, depth), alpha, beta)
    ensures alpha <= value <= beta
    ensures FirstOpen(b, 0) == |ORDER| ==> value == alpha
    ensures chosen != current ==>
      depth == MAX_DEPTH && CanPush(b, chosen) && alpha < -Negamax(rule, Push(b, chosen), depth - 1) < beta
    ensures depth == MAX_DEPTH && alpha < value < beta ==>
      CanPush(b, chosen) && -Negamax(rule, Push(b, chosen), depth - 1) == value
    decreases depth, 4
  {
    chosen, after, trace := current, b, [];
    var a, solved := alpha, false;
    var k := 0;
    while k < |ORDER|
      invariant k <= |ORDER|
      invariant after == b
      invariant Searched(b, trace, depth, k)
      invariant Progress(rule, b, alpha, beta, depth, current, k, a, solved, chosen)
    {
      var cutoff, t;
      cutoff, a, solved, chosen, after, t := TryColumn(rule, after, alpha, beta, depth, current, k, a, solved, chosen);
      SearchedStep(b, trace, t, depth, k);
      trace := trace + t;
      if cutoff {
        return beta, chosen, after, trace;
      }
      k := k + 1;
    }
    LoopEnd(rule, b, alpha, beta, depth, current, a, solved, chosen, trace);
    return a, chosen, after, trace;
  }

  /** `next_move`: search from the root with the window (-1e9, 1e9) and
      return `_column`, which changes only to a pushable column whose child
      value lies strictly inside the root window. When the root's own value
      does, the column is a best move by the depth-10 value. */
  method NextMove(rule: TieRule, b: Board, current: nat) returns (move: nat, after: Board, trace: seq<Op>)
    requires Valid(b)
    ensures after == b
    ensures Disciplined(trace, MAX_DEPTH) && Replay(b, trace) == Some(b)
    ensures move != current ==>
      CanPush(b, move) && ROOT_ALPHA < -Negamax(rule, Push(b, move), MAX_DEPTH - 1) < ROOT_BETA
    ensures !HasWinner(b) && !Tied(rule, b) && ROOT_ALPHA < Negamax(rule, b, MAX_DEPTH) < ROOT_BETA ==>
      CanPush(b, move) && -Negamax(rule, Push(b, move), MAX_DEPTH - 1) == Negamax(rule, b, MAX_DEPTH)
  {
    var score;
    score, move, after, trace := PrincipalVariation(rule, b, ROOT_ALPHA, ROOT_BETA, MAX_DEPTH, current);
  }

  /** `next_move` with the corrected tie test: on every reachable position
      that is neither won nor tied it returns a column `can_push` accepts,
      and a best one by the depth-10 value. */
  method CorrectedNextMove(b: Board, current: nat) returns (move: nat, after: Board, trace: seq<Op>)
    requires Valid(b)
    ensures after == b && Replay(b, trace) == Some(b)
    ensures move == current || CanPush(b, move)
    ensures !HasWinner(b) && !IsTie(b) ==>
      CanPush(b, move) && -Negamax(Corrected, Push(b, move), MAX_DEPTH - 1) == Negamax(Corrected, b, MAX_DEPTH)
  {
    move, after, trace := NextMove(Corrected, b, current);
    NegamaxCorrectedBound(b, MAX_DEPTH);
  }

  /** `next_move` as written, on a position with at most 31 stones, so that
      no line of the search reaches a full board: on such a position that
      is not won it returns a column `can_push` accepts, and a best one. */
  method OpeningNextMove(b: Board, current: nat) returns (move: nat, after: Board, trace: seq<Op>)
    requires Valid(b) && b.movesPlayed + MAX_DEPTH < ROWS * COLUMNS
    ensures after == b && Replay(b, trace) == Some(b)
    ensures move == current || CanPush(b, move)
    ensures !HasWinner(b) ==>
      CanPush(b, move) && -Negamax(AsWritten, Push(b, move), MAX_DEPTH - 1) == Negamax(AsWritten, b, MAX_DEPTH)
  {
    move, after, trace := NextMove(AsWritten, b, current);
    RulesAgree(b, MAX_DEPTH);
    NegamaxCorrectedBound(b, MAX_DEPTH);
  }

  /** `next_move` as written on a 41-stone position whose last free slot,
      `open`, makes a drawn full board: the search of that child finds no
      column and returns its alpha, the root sees `ROOT_BETA` and cuts off,
      and `_column` is returned unchanged, a full column unless it happened
      to be `open`. */
  method StaleNextMove(b: Board, current: nat, open: nat) returns (move: nat)
    requires Valid(b) && b.movesPlayed == ROWS * COLUMNS - 1 && CanPush(b, open)
    requires !HasWinner(b) && !HasWinner(Push(b, open))
    ensures move == current
    ensures current != open ==> !CanPush(b, move)
  {
    var after, trace;
    move, after, trace := NextMove(AsWritten, b, current);
    PushValid(b, open);
    FullBoardValues(Push(b, open), MAX_DEPTH - 1);
    OnlyOpenColumn(b, open);
  }
}
