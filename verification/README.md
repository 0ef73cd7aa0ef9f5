# Connect Four engine: bitboard state and principal-variation search

This project is a Dafny model of the core of a Connect Four engine. It covers
two parts and proves properties of both:

- `BoardState`, the bitboard game state in `games/connect_four/state.h`;
- `MinimaxAgent`, the fixed-depth negamax search in `games/connect_four/agent.h`.

Modules, one per concept:

| module | file | contents |
|---|---|---|
| `Options` | options.dfy | `Option<T>` |
| `Words` | words.dfy | 64-bit words and popcount |
| `BoardState` | state.dfy | the board record and its operations: constructor, `reset`, `can_push`, `column_height`, `push`, `pop`, `seed`, `get_slot_state`, `is_tie` |
| `BoardInvariants` | invariants.dfy | the invariant of every reachable board, and what follows from it |
| `Winner` | winner.dfy | `has_winner` and its meaning on the grid |
| `Scoring` | heuristic.dfy | `score()`, the positional heuristic |
| `Trace` | trace.dfy | the push/pop stack discipline on the shared board |
| `Agent` | agent.dfy | `principal_variation`, `next_move` and the centre-out column order |
| `StateTests` | state_tests.dfy | the seeded position of the `next_move` test in `games/connect_four/state_tests.cpp`, and the move a fresh agent returns there |

How the source's concepts are represented:

- **64-bit words.** A `uint64_t` is a `Word`: a `seq<bool>` of length 64 with
  bit 0 first. `|`, `&`, `^`, `>>` and `1 << i` become pointwise `Or`, `And`,
  `Xor`, `ShiftRight` and `Bit`. `POP_COUNT` is a recursive count of set
  bits. Indexing the bits directly lets the proofs about gravity, runs and
  popcounts work bit by bit. The same facts stated on `bv64` would need
  bit-vector reasoning for every step.
- **The cell layout.** Cell (column c, row r) is bit `c * 7 + r`. Row 6 of
  each column's block is a guard that is never set.
- **Whose stones `position` holds.** `position` stands for
  `current_position`. It holds the stones of the player who moved last:
  `push` XORs it with the new `mask` (state.h:66). `BoardInvariants.PushOwner`
  proves this through `get_slot_state`. A looser reading would say it holds
  the stones of the player to move; the model follows the code.
- **Integer widths.**
  - `moves_played` is a `uint16_t`. Its wrap-around is written out (`% 0x1_0000`).
  - `column_height` returns a `uint8_t` (`% 0x100`).
  - Scores and window bounds are unbounded integers. Every window the
    search is called with lies within the root window ±10^9, and so does
    every value it returns (`Agent.Negamax`); the window arithmetic
    `-alpha - 1` stays within ±(10^9 + 1), so no `int32_t` arithmetic in the
    search can overflow. With the corrected tie test every value lies within
    ±1792 (`Agent.NegamaxCorrectedBound`).
- **The shared mutable board.** The board is threaded through the search as
  a value. Each search method takes the board it finds and returns the board
  it leaves (`after`), together with the sequence of pushes and pops it made
  (`trace`). `after == b` states that the board is restored.
  `Trace.Disciplined(trace, depth)` states three things:
  - every push is undone by a pop of the same column;
  - the pushes and pops are properly nested;
  - at most `depth` pushes are ever outstanding.
- **The `_column` member.** It becomes a parameter `current` and a result
  `chosen`.
- **Pushes and pops on the board.** `Trace.Replay(b, trace)` replays a
  trace on `b`, and is `None` as soon as a push meets a full column or a pop
  an empty one. Every search method proves `Replay(b, trace) == Some(b)`:
  each operation was legal when made, and together they bring back `b`.
- **The two tie tests.** `BoardState.TieRule` selects the tie test: `is_tie`
  as written (`AsWritten`, 43 stones) or the corrected one (`Corrected`, 42
  stones). `Agent.Negamax` and every search member take it as a parameter,
  so the program as written and the corrected one are modelled side by side.
- **What the search computes.** `Agent.Negamax` is a reference definition:
  depth-limited negamax without pruning. It uses the same terminal tests in
  the same order, and the same centre-out column order. A position that is
  neither won nor tied and has no free column (possible only with the
  as-written tie test, at a full board) has the value `NO_MOVE`, the root
  `alpha` of -10^9: the search returns its `alpha` there, which is a correct
  fail-hard bound of that value for every window inside the root window.
  `Agent.PrincipalVariation` is proved to return a fail-hard bound of that
  value:
  - exact inside the window;
  - an upper bound at or below `alpha`;
  - a lower bound at or above `beta`.

  Termination follows from the lexicographic `decreases` on
  (depth, phase): each recursive search is on `depth - 1`.

## Model

| member | source | states |
|---|---|---|
| BoardState.Initial | games/connect_four/state.h:40-44 | the constructor's board is empty, player one is to move, no moves have been played and every column has six free slots |
| BoardState.Reset | games/connect_four/state.h:207-212 | `reset` empties both words, zeroes the move count and refills every column, but keeps whose turn it is |
| BoardState.CanPush | games/connect_four/state.h:202-205 | on a well-formed board, `can_push(c)` for an existing column holds exactly when the column's height is below six |
| BoardState.ColumnHeight | games/connect_four/state.h:107-110 | `column_height(c)` fits its `uint8_t`; on a well-formed board it is at most six and adds up with `column_remaining[c]` to six |
| BoardState.Push | games/connect_four/state.h:61-72 | `push(c)` sets exactly one new `mask` bit, the slot at `c*7 + column_height(c)`, takes one from `column_remaining[c]` only, adds one to `moves_played` modulo 2^16 and flips the turn |
| BoardState.Pop | games/connect_four/state.h:74-86 | `pop(c)` toggles exactly the top slot of `c` in `mask`, gives back one slot of `c` only, subtracts one from `moves_played` modulo 2^16 and flips the turn |
| BoardState.Seed | games/connect_four/state.h:88-91 | `seed(moves)` adds one move per column to `moves_played` modulo 2^16 and hands the turn over once per column |
| BoardState.GetSlotState | games/connect_four/state.h:93-105 | `get_slot_state` is EMPTY exactly when the `mask` bit is clear; otherwise it is PLAYER_ONE exactly when the `current_position` bit disagrees with `turn_player_one` |
| BoardState.IsTieAsWritten | games/connect_four/state.h:112-115 | `is_tie` as written holds exactly when `moves_played` is 43 |
| BoardState.PopAfterPush | games/connect_four/state.h:61-86 | `pop(c)` right after `push(c)` restores all five fields whenever the filled slot was empty |
| BoardState.PushAfterPop | games/connect_four/state.h:61-86 | `push(c)` right after `pop(c)` restores all five fields whenever the cleared slot held a stone |
| BoardState.SeedAppend | games/connect_four/state.h:88-91 | seeding a concatenation is seeding the two parts in turn, and it is legal exactly when both parts are |
| BoardState.SeedPushLast | games/connect_four/state.h:88-91 | seeding one more column is one more `push` on the seeded board |
| BoardInvariants.InitialValid | games/connect_four/state.h:40-44 | the constructor's board satisfies the reachable-board invariant: gravity, clear guard row and high bits, `current_position` within `mask`, popcount(mask) == moves_played == the stones counted from `column_remaining` |
| BoardInvariants.ResetValid | games/connect_four/state.h:207-212 | `reset` yields a board satisfying the invariant, from any board |
| BoardInvariants.PushValid | games/connect_four/state.h:61-72 | a legal `push` keeps the invariant, fills a slot that was empty, and raises both `moves_played` and popcount(mask) by one without wrapping |
| BoardInvariants.PushCounted | games/connect_four/state.h:61-72 | a legal `push` keeps `moves_played` equal to the stones counted from `column_remaining`, and raises it by one without wrapping |
| BoardInvariants.PopAfterPushValid | games/connect_four/state.h:61-86 | on every reachable board, `pop(c)` right after a legal `push(c)` restores all five fields |
| BoardInvariants.SeedValid | games/connect_four/state.h:88-91 | `seed` with legal columns keeps the invariant and adds one move per column |
| BoardInvariants.MovesBound | games/connect_four/state.h:37-38 | a reachable board holds at most 42 stones |
| BoardInvariants.FreeSlots | games/connect_four/state.h:37-38 | the stones on a reachable board and the free slots of any two distinct columns add up to at most 42 |
| BoardInvariants.OnlyOpenColumn | games/connect_four/state.h:202-205 | on a reachable board with 41 stones, `can_push` holds for one column only |
| BoardInvariants.SlotOccupied | games/connect_four/state.h:93-110 | a slot is non-empty exactly when its row is below the column's height |
| BoardInvariants.PushOwner | games/connect_four/state.h:93-105 | after `push(c)`, the slot at the old height of `c` is PLAYER_ONE exactly when player one was to move, so `current_position` holds the last mover's stones |
| BoardInvariants.PushKeepsOtherSlots | games/connect_four/state.h:61-72 | `push` changes the owner of no other slot |
| BoardInvariants.IsTieAsWrittenNeverHolds | games/connect_four/state.h:112-115 | `is_tie` as written is false on every reachable board |
| BoardInvariants.IsTieIffFull | games/connect_four/state.h:202-205 | the corrected tie test holds exactly when `can_push` fails for every column, on every board whose move count matches its column counters |
| BoardInvariants.FillBoard | games/connect_four/state.h:112-115 | from every reachable board some legal pushes fill the board, where the corrected tie test holds and the as-written one does not |
| Winner.DetectWinner | games/connect_four/state.h:185-200 | the two loops of `has_winner` return true exactly when three rounds of `x &= x >> d` leave a bit set for some stride |
| Winner.RunLine | games/connect_four/state.h:191-194 | after n rounds of `x &= x >> d`, bit i survives exactly when bits i, i+d, ..., i+n*d are all set |
| Winner.HasWinnerIffLine | games/connect_four/state.h:185-200 | `has_winner` holds exactly when `current_position` has four set bits in a row at stride 7, 1, 6 or 8 |
| Winner.HasWinnerIffInARow | games/connect_four/state.h:185-200 | on a reachable board `has_winner` holds exactly when the last mover has four stones in a horizontal, vertical or diagonal row of the 7 x 6 grid; the clear guard row stops runs wrapping between columns |
| Winner.ThreeStonesNoWinner | games/connect_four/state.h:185-200 | `has_winner` is false while the last mover has at most three stones, since every line it looks for needs four distinct set bits |
| Scoring.CountDirection | games/connect_four/state.h:137-168 | one pass of the direction loop adds, for each player at that stride, adjacent pairs minus triples (one per maximal run of at least two stones), triples minus fours (one per maximal run of at least three) and the fours |
| Scoring.Weigh | games/connect_four/state.h:170-180 | the weighing loop gives each maximal run of at least two stones weight 5 and each run of at least three weight 2 more, the fours entry counted but not weighted; first player added, second subtracted |
| Scoring.SegmentRuns | games/connect_four/state.h:137-168 | on one run of `len` stones at stride 1, `n` rounds of the shift-and-AND leave `len - n` set bits, none once `n >= len` |
| Scoring.SegmentTally | games/connect_four/state.h:137-180 | a lone run of stones tallies one pair-or-longer from two stones, one triple-or-longer from three, and `len - 3` fours, so it weighs 5 as a pair and 7 as a triple, four or longer |
| Scoring.Score | games/connect_four/state.h:132-183 | `score()` computes the heuristic: the weighted tally of the player to move minus that of the last mover |
| Scoring.Heuristic | games/connect_four/state.h:132-183 | `score()` never exceeds 1792 in magnitude |
| Scoring.HeuristicAntisymmetric | games/connect_four/state.h:139-140 | replacing `current_position` by `current_position ^ mask` negates `score()` |
| Scoring.HeuristicEmpty | games/connect_four/state.h:132-183 | the empty board scores 0 |
| Trace.DisciplinedConcat | games/connect_four/agent.h:52-85 | two disciplined sequences of pushes and pops in a row are disciplined |
| Trace.DisciplinedBracket | games/connect_four/agent.h:58-74 | a push, a disciplined search one level down and the matching pop are disciplined |
| Trace.Bracket | games/connect_four/agent.h:58-74 | one loop iteration's operations start with the `push` of its column and end with the `pop` of it |
| Trace.ReplayConcat | games/connect_four/agent.h:52-85 | two sequences of pushes and pops that each replay legally from a board back to it, replay legally back to it in a row |
| Trace.ReplayBracket | games/connect_four/agent.h:58-74 | `push(c)` on a free column, operations that bring the pushed board back, and `pop(c)` replay legally and bring back the board |
| Agent.CenterOut | games/connect_four/agent.h:52-55 | the nested distance loops visit the columns 3, 2, 4, 1, 5, 0, 6: each column exactly once, in non-decreasing distance from the centre |
| Agent.TerminalLoss | games/connect_four/agent.h:44 | a won position scores within [-42, -32] for depth up to 10 |
| Agent.TerminalLossOrder | games/connect_four/agent.h:44 | a win detected nearer the root scores lower |
| Agent.Negamax | games/connect_four/agent.h:42-88 | the reference value of every position, under either tie test, at every depth up to 10, lies within the root window ±10^9 |
| Agent.FirstOpen | games/connect_four/agent.h:52-56 | the first column in search order that `can_push` accepts: every column before it is full |
| Agent.FirstOpenNone | games/connect_four/agent.h:52-56 | no column in search order is open exactly when no column of the board is |
| Agent.BestGrows | games/connect_four/agent.h:52-83 | once a pushable column has been seen the best child value exists, and it only grows as more columns are seen |
| Agent.BestNone | games/connect_four/agent.h:56 | while every column seen so far was full there is no best child value |
| Agent.HasBest | games/connect_four/agent.h:50-87 | a position has a best child value exactly when some column accepts a stone, under either tie test |
| Agent.ChildAtMost | games/connect_four/agent.h:76 | no child's negated value exceeds the reference value of a non-terminal position, which justifies the beta cutoff |
| Agent.Keep | games/connect_four/agent.h:78-83 | a new child value replaces the best so far only when strictly greater, so the result is at least both and the earliest best is kept |
| Agent.NegamaxCorrectedBound | games/connect_four/agent.h:42-88 | with the corrected tie test, every board whose move count matches its column counters has a value within ±1792 at every depth: a position not tied always has a move |
| Agent.RulesAgree | games/connect_four/agent.h:46 | when the stones on the board plus the depth stay below 42, the search as written and the corrected one have the same value |
| Agent.FullBoardValues | games/connect_four/agent.h:46-87 | on a full reachable board without a winner and depth left, the corrected value is 0, while as written no column is open and the value is -10^9, the value of `return alpha` |
| Agent.ProbeChild | games/connect_four/agent.h:60-68 | the null-window probe, with a full-window re-search only when the probe lands strictly inside (alpha, beta), gives an exact child score inside the window and a correct bound outside it; its pushes and pops replay legally and bring the board back |
| Agent.FullChild | games/connect_four/agent.h:69-72 | before `solved`, the full-window search of a child gives an exact score inside the window and a correct bound outside it; the board comes back unchanged |
| Agent.PopChild | games/connect_four/agent.h:74 | the `pop` after a child's search gives back the board before its `push` |
| Agent.SearchChild | games/connect_four/agent.h:58-74 | the iteration starts with `push(column)` and ends with `pop(column)`, every operation in it is legal and the board comes back; the pushes and pops nest, and the score bounds the child's value |
| Agent.Advance | games/connect_four/agent.h:78-83 | a child scored without a cutoff raises alpha only when its score is strictly greater, to the best child seen, and at depth 10 moves `_column` to it |
| Agent.SearchColumn | games/connect_four/agent.h:58-83 | a beta cutoff means the value is at least beta and leaves `_column` untouched; otherwise alpha only rises, only to the best child seen, and stays below beta, and `_column` changes only at depth 10 to a pushable column whose child value lies strictly inside the window |
| Agent.TryColumn | games/connect_four/agent.h:56-83 | a full column is skipped with no push and no change to the loop state; an open one starts with its `push` |
| Agent.SearchedStep | games/connect_four/agent.h:52-85 | the loop's operations so far stay legal and restoring, and begin with the push of the first open column, as each column's operations are appended |
| Agent.LoopEnd | games/connect_four/agent.h:87 | a loop that ends without a cutoff returns a fail-hard bound of the value, and `alpha` itself when no column was open |
| Agent.ColumnLoop | games/connect_four/agent.h:50-87 | the column loop returns a value in [alpha, beta] that is a fail-hard bound of the negamax value, `alpha` when no column is open (pushing nothing), and otherwise starts by pushing the first open column |
| Agent.PrincipalVariation | games/connect_four/agent.h:42-88 | the board is left as found, every push and pop is legal, with at most `depth` pushes outstanding; win, the given tie test and leaf are tested in that order with values -(42 + depth - 10), 0 and `score()`; otherwise the result lies in [alpha, beta], is `alpha` when no column is open, and is a fail-hard bound of the negamax value; `_column` is either untouched or, at depth 10, a pushable column whose child value lies strictly inside the window |
| Agent.NextMove | games/connect_four/agent.h:35-40 | `next_move` leaves the board unchanged; the returned `_column` is either the one held before or a pushable column; when the root value lies strictly inside the root window, it is a pushable column whose child attains the depth-10 value |
| Agent.CorrectedNextMove | games/connect_four/agent.h:35-40 | with the corrected tie test, on every reachable position neither won nor tied `next_move` returns a column `can_push` accepts whose child attains the depth-10 value |
| Agent.OpeningNextMove | games/connect_four/agent.h:35-40 | as written, on every reachable position with at most 31 stones and no winner, `next_move` returns a column `can_push` accepts whose child attains the depth-10 value |
| StateTests.TestSeed | games/connect_four/state_tests.cpp:61-66 | `seed({3, 2, 3, 3, 2})` on a fresh board is five legal pushes, after which the last mover has stones only at column 2 row 1 and column 3 rows 0 and 1 (bits 15, 21, 22) |
| StateTests.TestOpening | games/connect_four/state_tests.cpp:61-66 | the seeded test position is reachable, holds 5 stones and has no winner, and column 0, the fresh agent's `_column` (agent.h:18), is open there |
| StateTests.TestNextMove | games/connect_four/state_tests.cpp:61-72 | on the seeded test position a fresh agent, as written, returns a column `can_push` accepts, so the test's `push(agent.next_move())` is legal, and the column's child attains the depth-10 value |
| Agent.StaleNextMove | games/connect_four/agent.h:35-88 | as written, on a reachable 41-stone position whose last free slot draws, `next_move` returns `_column` unchanged, a full column unless it already was the open one |

## Left out

- `print` and the rendering and window code around the board: output only.
- `Span` and `POP_COUNT` come from an external library that is not part of
  this model. `Span` is a `seq<nat>`. `POP_COUNT` is a plain count of set bits.
  Its result goes into a `uint8_t`, which cannot overflow at 64.
- BoardState.GetSlotState: `get_slot_state` stores the offset in a `uint8_t`.
  The model requires the offset to lie inside the 64-bit word, so the
  truncation of larger offsets and shifts of 64 or more are not modelled.
- BoardState.Push: requires `can_push`. Pushing a full column c < 7 is
  defined in the source: it sets the guard bit c*7+6, leaves
  `column_remaining[c]` at -1 and still counts a move, which takes the board
  out of the reachable-board invariant. The model leaves that case out; the
  search never makes such a push. Pushing a column of 7 or more reads and
  writes outside `column_remaining`, which is undefined behaviour.
- BoardState.Pop: requires that the column holds a stone. Popping an empty
  column c between 1 and 6 is defined in the source: the shift c*7-1 toggles
  the guard bit of column c-1, which sets it, and `column_remaining[c]`
  becomes 7. The model leaves that case out; the search only pops right
  after the matching push. Popping an empty column 0 shifts by 2^32 - 1, and
  popping a column of 7 or more reads outside `column_remaining`; both are
  undefined behaviour. Its round trips are proved only with the matching
  `push`.
- Agent.PrincipalVariation: requires a window inside the root window,
  `-10^9 <= alpha < beta <= 10^9`, which every call in the source
  satisfies. The `int32_t` window arithmetic is unbounded here; all values
  stay within ±10^9.
- Agent.Negamax: for a position neither won nor tied with no pushable column
  it gives -10^9, not the `alpha` the search returns for the window at hand.
  With the tie test as written this happens at every full board without a
  winner; the search's `alpha` is then a correct fail-hard bound of -10^9,
  but not equal to it. With the corrected tie test the case never arises on
  a reachable board (`Agent.HasBest`, `BoardInvariants.IsTieIffFull`).
- Agent.NextMove: the `uint32_t` into which the root score is stored is
  never read, so it is dropped. For the program as written, a pushable best
  move is proved only for positions with at most 31 stones
  (`Agent.OpeningNextMove`); it fails at 41-stone positions whose last move
  draws (`Agent.StaleNextMove`), and nothing is claimed for positions with
  32 to 40 stones, where a search line can reach a full board.
- Agent.ProbeChild: when the re-search happens is part of its body, not its
  contract. The contract states what the parent learns from the probe.
- The playing strength of the chosen move is not claimed. The only claim is
  that the move attains the depth-10 value of the model's own heuristic.

## Findings

| source | as written | input that shows it | evidently intended | confidence | as-written member | corrected member |
|---|---|---|---|---|---|---|
| games/connect_four/state.h:112-115 | `is_tie` returns `ROWS * COLUMNS == moves_played - 1`, true only when 43 stones have been played | any full board, for example the board `BoardInvariants.FillBoard` reaches: 42 stones, no column pushable, yet `is_tie` is false | `moves_played == ROWS * COLUMNS` | not executed | BoardInvariants.IsTieAsWrittenNeverHolds | BoardInvariants.IsTieIffFull |
| games/connect_four/agent.h:46-87 | `principal_variation` relies on `is_tie` to stop at a full board; as written it goes on, finds no column and returns `alpha`, so a child at a full drawn board reports `-alpha` and the root cuts off without setting `_column` | a reachable 41-stone position without a winner whose last free slot draws: the root searches that column, the child returns `-10^9`, the root sees `10^9 >= beta` and returns before line 82, so `next_move` returns the stale `_column`, a full column unless it already was the open one | a full board scores 0 as a draw | not executed | Agent.StaleNextMove | Agent.CorrectedNextMove |

The as-written test is `BoardState.IsTieAsWritten`. The corrected test is
`BoardState.IsTie`. The search is modelled with both (`BoardState.TieRule`).

With the code as written, a search that reaches a full board without a
winner does the following:

1. It does not stop at the tie test.
2. At depth above 0, it finds no pushable column.
3. It returns `alpha` unchanged, which is -10^9 seen from the root's child
   (`Agent.FullBoardValues`).
4. At the root this is a beta cutoff, and `_column` keeps the value it had
   (`Agent.StaleNextMove`). The caller then pushes that column, which is
   full.

While no search line can reach a full board, that is, with at most 31
stones at the root, the two tests give the same values
(`Agent.RulesAgree`), so the program as written returns a pushable best
move there (`Agent.OpeningNextMove`), including on the position the tests
seed (`StateTests.TestOpening`, `StateTests.TestNextMove`).
