/** The Connect Four board (`BoardState` in games/connect_four/state.h).

    Seven columns of six rows are packed into a 64-bit word, seven bits per
    column: cell (column c, row r) is bit `c * 7 + r`, and bit 6 of every
    column block is a guard that no stone ever occupies. `mask` holds every
    stone; `position` (the source's `current_position`) holds the stones of
    the player who moved LAST, kept that way by XOR-ing it with `mask` after
    every change. */
module BoardState {
  import opened Words

  const ROWS: nat := 6
  const COLUMNS: nat := 7
  const WIN_LENGTH: nat := 4

  /** Bit strides of the four line directions: horizontal (one column over),
      vertical (one row up), and the two diagonals. */
  const DIRECTIONS: seq<nat> := [ROWS + 1, 1, ROWS, ROWS + 2]

  /** `moves_played` is a `uint16_t`. */
  const MOVES_MODULUS: nat := 0x1_0000

  /** `column_height` returns a `uint8_t`. */
  const HEIGHT_MODULUS: nat := 0x100

  datatype SlotState = Empty | PlayerOne | PlayerTwo

  datatype Board = Board(
    mask: Word,
    position: Word,
    turnPlayerOne: bool,
    movesPlayed: nat,
    remaining: seq<int>)

  /** Bit index of cell (column, row). */
  function Cell(column: nat, row: nat): (i: nat)
  {
    column * (ROWS + 1) + row
  }

  /** The shape every board the program builds has: seven column counters,
      each between 0 and `ROWS`, and a move counter that fits its `uint16_t`. */
  predicate WellFormed(b: Board)
  {
    && |b.remaining| == COLUMNS
    && b.movesPlayed < MOVES_MODULUS
    && forall c :: 0 <= c < COLUMNS ==> 0 <= b.remaining[c] <= ROWS
  }

  /** Seven empty columns. */
  function EmptyColumns(): (s: seq<int>)
    ensures |s| == COLUMNS
    ensures forall c :: 0 <= c < COLUMNS ==> s[c] == ROWS
  {
    seq(COLUMNS, _ => ROWS)
  }

  /** The constructor: an empty board with player one to move. */
  function Initial(): (b: Board)
    ensures WellFormed(b)
    ensures b.mask == Zero() && b.position == Zero()
    ensures b.turnPlayerOne && b.movesPlayed == 0
    ensures forall c :: 0 <= c < COLUMNS ==> b.remaining[c] == ROWS
  {
    Board(Zero(), Zero(), true, 0, EmptyColumns())
  }

  /** `reset`: empties the board and the counters but keeps whose turn it is. */
  function Reset(b: Board): (r: Board)
    ensures WellFormed(r)
    ensures r.turnPlayerOne == b.turnPlayerOne
    ensures r.mask == Zero() && r.position == Zero() && r.movesPlayed == 0
    ensures forall c :: 0 <= c < COLUMNS ==> r.remaining[c] == ROWS
  {
    Board(Zero(), Zero(), b.turnPlayerOne, 0, EmptyColumns())
  }

  /** `can_push`: the column exists and still has a free slot, that is,
      its height is below the guard row. */
  predicate CanPush(b: Board, column: nat)
    requires |b.remaining| == COLUMNS
    ensures WellFormed(b) && column < COLUMNS ==> (CanPush(b, column) <==> ColumnHeight(b, column) < ROWS)
  {
    column < COLUMNS && b.remaining[column] > 0
  }

  /** `column_height`: the row of the next free slot, as a `uint8_t`. */
  function ColumnHeight(b: Board, column: nat): (h: nat)
    requires |b.remaining| == COLUMNS && column < COLUMNS
    ensures h < HEIGHT_MODULUS
    ensures WellFormed(b) ==> h <= ROWS && h + b.remaining[column] == ROWS
  {
    (ROWS - b.remaining[column]) % HEIGHT_MODULUS
  }

  /** Bit index of the slot `push(column)` fills. */
  function PushSlot(b: Board, column: nat): (i: nat)
    requires WellFormed(b) && CanPush(b, column)
    ensures i < COLUMNS * (ROWS + 1)
    ensures i == Cell(column, ColumnHeight(b, column))
  {
    column * (ROWS + 1) + (ROWS - b.remaining[column])
  }

  /** Bit index of the slot `pop(column)` clears: the top stone. */
  function PopSlot(b: Board, column: nat): (i: nat)
    requires WellFormed(b) && column < COLUMNS && b.remaining[column] < ROWS
    ensures i < COLUMNS * (ROWS + 1)
    ensures i == Cell(column, ColumnHeight(b, column) - 1)
  {
    column * (ROWS + 1) + (ROWS - b.remaining[column] - 1)
  }

  /** `push`: drop a stone of the player to move into `column`. The caller
      must have checked `can_push`. */
  function Push(b: Board, column: nat): (r: Board)
    requires WellFormed(b) && CanPush(b, column)
    ensures WellFormed(r)
    ensures forall i {:trigger r.mask[i]} :: 0 <= i < WIDTH ==> (r.mask[i] <==> b.mask[i] || i == PushSlot(b, column))
    ensures r.remaining[column] == b.remaining[column] - 1
    ensures forall c {:trigger r.remaining[c]} :: 0 <= c < COLUMNS && c != column ==> r.remaining[c] == b.remaining[c]
    ensures r.turnPlayerOne == !b.turnPlayerOne
    ensures r.movesPlayed == (b.movesPlayed + 1) % MOVES_MODULUS
  {
    var shift := PushSlot(b, column);
    var mask := Or(b.mask, Bit(shift));
    Board(
      mask,
      Xor(b.position, mask),
      !b.turnPlayerOne,
      (b.movesPlayed + 1) % MOVES_MODULUS,
      b.remaining[column := b.remaining[column] - 1])
  }

  /** `pop`: take the top stone back out of `column`. Only meaningful right
      after the matching `push`; the model asks only that the column holds a
      stone, which is what keeps the shift inside the word. */
  function Pop(b: Board, column: nat): (r: Board)
    requires WellFormed(b) && column < COLUMNS && b.remaining[column] < ROWS
    ensures WellFormed(r)
    ensures forall i {:trigger r.mask[i]} :: 0 <= i < WIDTH ==> (r.mask[i] <==> b.mask[i] != (i == PopSlot(b, column)))
    ensures r.remaining[column] == b.remaining[column] + 1
    ensures forall c {:trigger r.remaining[c]} :: 0 <= c < COLUMNS && c != column ==> r.remaining[c] == b.remaining[c]
    ensures r.turnPlayerOne == !b.turnPlayerOne
    ensures r.movesPlayed == (b.movesPlayed + MOVES_MODULUS - 1) % MOVES_MODULUS
  {
    var shift := PopSlot(b, column);
    var mask := Xor(b.mask, Bit(shift));
    Board(
      mask,
      Xor(Xor(b.position, Bit(shift)), mask),
      !b.turnPlayerOne,
      (b.movesPlayed + MOVES_MODULUS - 1) % MOVES_MODULUS,
      b.remaining[column := b.remaining[column] + 1])
  }

  /** Whether every column of `moves`, played in order from `b`, is legal
      when its turn comes. */
  predicate Playable(b: Board, moves: seq<nat>)
    requires WellFormed(b)
    decreases |moves|
  {
    |moves| == 0 || (CanPush(b, moves[0]) && Playable(Push(b, moves[0]), moves[1..]))
  }

  /** `seed`: push each column of `moves` in order. Every push counts one
      move and hands the turn over. */
  function Seed(b: Board, moves: seq<nat>): (r: Board)
    requires WellFormed(b) && Playable(b, moves)
    ensures WellFormed(r)
    ensures r.movesPlayed == (b.movesPlayed + |moves|) % MOVES_MODULUS
    ensures r.turnPlayerOne == (b.turnPlayerOne == (|moves| % 2 == 0))
    decreases |moves|
  {
    if |moves| == 0 then b else Seed(Push(b, moves[0]), moves[1..])
  }

  /** `get_slot_state(row, column)`: empty, or the owner of the stone there.
      A stone in `position` belongs to the player who is NOT to move. */
  function GetSlotState(b: Board, row: nat, column: nat): (s: SlotState)
    requires Cell(column, row) < WIDTH
    ensures s == Empty <==> !b.mask[Cell(column, row)]
    ensures s != Empty ==> (s == PlayerOne <==> b.position[Cell(column, row)] != b.turnPlayerOne)
  {
    var offset := Cell(column, row);
    if !b.mask[offset] then Empty
    else
      var zeroPlayer := if b.turnPlayerOne then PlayerTwo else PlayerOne;
      var onePlayer := if !b.turnPlayerOne then PlayerTwo else PlayerOne;
      if b.position[offset] then zeroPlayer else onePlayer
  }

  /** `is_tie` as written: `ROWS * COLUMNS == moves_played - 1`, evaluated
      in `int`, so it holds only with 43 stones on a 42-cell board. */
  predicate IsTieAsWritten(b: Board)
    ensures IsTieAsWritten(b) <==> b.movesPlayed == ROWS * COLUMNS + 1
  {
    ROWS * COLUMNS == b.movesPlayed - 1
  }

  /** The tie test the search relies on: every cell is filled. */
  predicate IsTie(b: Board)
  {
    b.movesPlayed == ROWS * COLUMNS
  }

  /** Which of the two tie tests a search uses. */
  datatype TieRule = AsWritten | Corrected

  predicate Tied(rule: TieRule, b: Board)
  {
    match rule
    case AsWritten => IsTieAsWritten(b)
    case Corrected => IsTie(b)
  }

  // ---- push and pop undo each other ---------------------------------------

  /** `pop(c)` right after `push(c)` restores all five fields, provided the
      slot `push` filled was empty (true on every valid board). */
  lemma PopAfterPush(b: Board, column: nat)
    requires WellFormed(b) && CanPush(b, column)
    requires !b.mask[PushSlot(b, column)]
    ensures Pop(Push(b, column), column) == b
  {
    var p := Push(b, column);
    var j := PushSlot(b, column);
    assert PopSlot(p, column) == j;
    assert p.remaining[column := p.remaining[column] + 1] == b.remaining;
  }

  /** `push(c)` right after `pop(c)` restores all five fields, provided the
      slot `pop` cleared held a stone. */
  lemma PushAfterPop(b: Board, column: nat)
    requires WellFormed(b) && column < COLUMNS && b.remaining[column] < ROWS
    requires b.mask[PopSlot(b, column)]
    ensures Push(Pop(b, column), column) == b
  {
    var p := Pop(b, column);
    var j := PopSlot(b, column);
    assert PushSlot(p, column) == j;
    assert p.remaining[column := p.remaining[column] - 1] == b.remaining;
  }

  // ---- seed is push, column after column ----------------------------------

  /** Seeding `xs + ys` is seeding `xs` and then `ys`. */
  lemma {:induction false} SeedAppend(b: Board, xs: seq<nat>, ys: seq<nat>)
    requires WellFormed(b)
    ensures Playable(b, xs + ys) <==> Playable(b, xs) && Playable(Seed(b, xs), ys)
    ensures Playable(b, xs + ys) ==> Seed(b, xs + ys) == Seed(Seed(b, xs), ys)
    decreases |xs|
  {
    if |xs| == 0 {
      assert xs + ys == ys;
    } else {
      assert (xs + ys)[0] == xs[0];
      assert (xs + ys)[1..] == xs[1..] + ys;
      if CanPush(b, xs[0]) {
        SeedAppend(Push(b, xs[0]), xs[1..], ys);
      }
    }
  }

  /** Seeding one more column is one more `push`. */
  lemma SeedPushLast(b: Board, moves: seq<nat>, column: nat)
    requires WellFormed(b) && Playable(b, moves)
    requires CanPush(Seed(b, moves), column)
    ensures Playable(b, moves + [column])
    ensures Seed(b, moves + [column]) == Push(Seed(b, moves), column)
  {
    var s := Seed(b, moves);
    assert Playable(s, [column]) by {
      assert [column][1..] == [];
    }
    SeedAppend(b, moves, [column]);
    assert Seed(s, [column]) == Seed(Push(s, column), []);
  }
}
