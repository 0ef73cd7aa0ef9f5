/** `has_winner` (games/connect_four/state.h): for each of the four strides,
    `position &= position >> direction` three times; a bit that survives
    marks the first cell of four stones of the last mover in a row. */
module Winner {
  import opened Words
  import opened BoardState
  import opened BoardInvariants

  /** `n` rounds of `x &= x >> d`. */
  function Run(x: Word, d: nat, n: nat): (r: Word)
    requires d < WIDTH
  {
    if n == 0 then x
    else
      var y := Run(x, d, n - 1);
      And(y, ShiftRight(y, d))
  }

  /** The value `has_winner` returns. */
  predicate HasWinner(b: Board)
  {
    exists k :: 0 <= k < |DIRECTIONS| && NonZero(Run(b.position, DIRECTIONS[k], WIN_LENGTH - 1))
  }

  /** `has_winner` with its two loops. */
  method DetectWinner(b: Board) returns (found: bool)
    ensures found == HasWinner(b)
  {
    var k := 0;
    while k < |DIRECTIONS|
      invariant k <= |DIRECTIONS|
      invariant forall j :: 0 <= j < k ==> !NonZero(Run(b.position, DIRECTIONS[j], WIN_LENGTH - 1))
    {
      var direction := DIRECTIONS[k];
      var position := b.position;
      var sequence := 1;
      while sequence < WIN_LENGTH
        invariant 1 <= sequence <= WIN_LENGTH
        invariant position == Run(b.position, direction, sequence - 1)
      {
        position := And(position, ShiftRight(position, direction));
        sequence := sequence + 1;
      }
      if NonZero(position) {
        return true;
      }
      k := k + 1;
    }
    return false;
  }

  // ---- runs of bits ----------------------------------------------------------

  /** Bits `i, i + d, …, i + (len - 1) * d` are all inside the word and set. */
  predicate Line(x: Word, i: nat, d: nat, len: nat)
    decreases len
  {
    len == 0 || (i < WIDTH && x[i] && Line(x, i + d, d, len - 1))
  }

  /** A line of `n + 1` bits contains the line of its first `n`. */
  lemma {:induction false} LinePrefix(x: Word, i: nat, d: nat, n: nat)
    requires Line(x, i, d, n + 1)
    ensures Line(x, i, d, n)
    decreases n
  {
    if n > 0 {
      LinePrefix(x, i + d, d, n - 1);
    }
  }

  /** After `n` rounds, bit `i` survives exactly when the `n + 1` bits
      `i, i + d, …, i + n * d` were all set. */
  lemma {:induction false} RunLine(x: Word, d: nat, n: nat, i: nat)
    requires 0 < d < WIDTH && i < WIDTH
    ensures Run(x, d, n)[i] <==> Line(x, i, d, n + 1)
    decreases n
  {
    if n > 0 {
      var y := Run(x, d, n - 1);
      assert Run(x, d, n)[i] <==> y[i] && i + d < WIDTH && y[i + d];
      RunLine(x, d, n - 1, i);
      assert Line(x, i, d, n + 1) <==> x[i] && Line(x, i + d, d, n);
      assert Line(x, i, d, n) <==> x[i] && Line(x, i + d, d, n - 1);
      if i + d < WIDTH {
        RunLine(x, d, n - 1, i + d);
        if Line(x, i + d, d, n) {
          LinePrefix(x, i + d, d, n - 1);
        }
      }
    }
  }

  /** `has_winner` holds exactly when the last mover's word has four set
      bits in a row at one of the four strides. */
  lemma HasWinnerIffLine(b: Board)
    ensures HasWinner(b) <==>
      exists k, i :: 0 <= k < |DIRECTIONS| && 0 <= i < WIDTH && Line(b.position, i, DIRECTIONS[k], WIN_LENGTH)
  {
    var x := b.position;
    if HasWinner(b) {
      var k :| 0 <= k < |DIRECTIONS| && NonZero(Run(x, DIRECTIONS[k], WIN_LENGTH - 1));
      var i :| 0 <= i < WIDTH && Run(x, DIRECTIONS[k], WIN_LENGTH - 1)[i];
      RunLine(x, DIRECTIONS[k], WIN_LENGTH - 1, i);
      assert Line(x, i, DIRECTIONS[k], WIN_LENGTH);
    }
    if exists k, i :: 0 <= k < |DIRECTIONS| && 0 <= i < WIDTH && Line(x, i, DIRECTIONS[k], WIN_LENGTH) {
      var k, i :| 0 <= k < |DIRECTIONS| && 0 <= i < WIDTH && Line(x, i, DIRECTIONS[k], WIN_LENGTH);
      RunLine(x, DIRECTIONS[k], WIN_LENGTH - 1, i);
      assert NonZero(Run(x, DIRECTIONS[k], WIN_LENGTH - 1));
    }
  }

  // ---- runs of bits are lines on the board -----------------------------------

  /** Column and row steps of the four directions, in the order of `DIRECTIONS`:
      horizontal, vertical, falling diagonal, rising diagonal. */
  const COLUMN_STEP: seq<int> := [1, 0, 1, 1]
  const ROW_STEP: seq<int> := [0, 1, -1, 1]

  /** The last mover has a stone in cell (column, row) of the 7 x 6 grid. */
  predicate Owns(b: Board, column: int, row: int)
  {
    0 <= column < COLUMNS && 0 <= row < ROWS && b.position[Cell(column, row)]
  }

  /** `n` stones of the last mover in a row of the grid, starting at
      (column, row) and stepping in direction `k`. */
  predicate InARow(b: Board, column: int, row: int, k: nat, n: nat)
    requires k < |DIRECTIONS|
    decreases n
  {
    n == 0 || (Owns(b, column, row) && InARow(b, column + COLUMN_STEP[k], row + ROW_STEP[k], k, n - 1))
  }

  /** A stride is one step of its direction on the grid. */
  lemma StepCell(column: int, row: int, k: nat)
    requires k < |DIRECTIONS|
    requires 0 <= column < COLUMNS && 0 <= row < ROWS
    requires 0 <= column + COLUMN_STEP[k] < COLUMNS && 0 <= row + ROW_STEP[k] < ROWS
    ensures Cell(column + COLUMN_STEP[k], row + ROW_STEP[k]) == Cell(column, row) + DIRECTIONS[k]
  {
  }

  /** Every stone of a valid board lies in a grid cell below the guard row. */
  lemma Locate(b: Board, i: nat) returns (column: nat, row: nat)
    requires Valid(b) && i < WIDTH && b.mask[i]
    ensures column < COLUMNS && row < ROWS && Cell(column, row) == i
  {
    column, row := i / (ROWS + 1), i % (ROWS + 1);
    assert Cell(column, row) == i;
    assert b.mask[Cell(column, row)];
  }

  /** On a valid board, a stone of the last mover one stride away from a grid
      cell is the grid neighbour in that direction: the clear guard row and
      the clear bits above the last column stop a run from wrapping to
      another column. */
  lemma StepLocate(b: Board, column: nat, row: nat, k: nat) returns (column': nat, row': nat)
    requires Valid(b) && k < |DIRECTIONS|
    requires column < COLUMNS && row < ROWS
    requires Cell(column, row) + DIRECTIONS[k] < WIDTH && b.position[Cell(column, row) + DIRECTIONS[k]]
    ensures column' == column + COLUMN_STEP[k] && row' == row + ROW_STEP[k]
    ensures Cell(column', row') == Cell(column, row) + DIRECTIONS[k]
    ensures Owns(b, column', row')
  {
    column', row' := Locate(b, Cell(column, row) + DIRECTIONS[k]);
    assert column' * (ROWS + 1) + row' == column * (ROWS + 1) + row + DIRECTIONS[k];
  }

  /** On a valid board, `n` set bits of the last mover at stride
      `DIRECTIONS[k]`, from a grid cell, are `n` stones in a row of the grid. */
  lemma {:induction false} LineInARow(b: Board, column: nat, row: nat, k: nat, n: nat)
    requires Valid(b) && k < |DIRECTIONS| && column < COLUMNS && row < ROWS
    requires Line(b.position, Cell(column, row), DIRECTIONS[k], n)
    ensures InARow(b, column, row, k, n)
    decreases n
  {
    var i, d := Cell(column, row), DIRECTIONS[k];
    if n > 0 {
      assert b.position[i] && Line(b.position, i + d, d, n - 1);
      if n > 1 {
        var c', r' := StepLocate(b, column, row, k);
        LineInARow(b, c', r', k, n - 1);
      }
    }
  }

  /** `n` stones in a row of the grid are `n` set bits at the direction's
      stride. */
  lemma {:induction false} InARowLine(b: Board, column: int, row: int, k: nat, n: nat)
    requires k < |DIRECTIONS| && 0 < n && InARow(b, column, row, k, n)
    ensures 0 <= column && 0 <= row
    ensures Line(b.position, Cell(column, row), DIRECTIONS[k], n)
    decreases n
  {
    var c', r' := column + COLUMN_STEP[k], row + ROW_STEP[k];
    if n > 1 {
      InARowLine(b, c', r', k, n - 1);
      StepCell(column, row, k);
    }
  }

  /** On a valid board `has_winner` holds exactly when the last mover has
      four stones in a horizontal, vertical or diagonal row of the grid. */
  lemma HasWinnerIffInARow(b: Board)
    requires Valid(b)
    ensures HasWinner(b) <==> exists c, r, k :: 0 <= k < |DIRECTIONS| && InARow(b, c, r, k, WIN_LENGTH)
  {
    HasWinnerIffLine(b);
    if HasWinner(b) {
      var k, i :| 0 <= k < |DIRECTIONS| && 0 <= i < WIDTH && Line(b.position, i, DIRECTIONS[k], WIN_LENGTH);
      var c, r := Locate(b, i);
      LineInARow(b, c, r, k, WIN_LENGTH);
      assert InARow(b, c, r, k, WIN_LENGTH);
      assert exists c', r', k' :: 0 <= k' < |DIRECTIONS| && InARow(b, c', r', k', WIN_LENGTH);
    }
    if exists c, r, k :: 0 <= k < |DIRECTIONS| && InARow(b, c, r, k, WIN_LENGTH) {
      var c, r, k :| 0 <= k < |DIRECTIONS| && InARow(b, c, r, k, WIN_LENGTH);
      InARowLine(b, c, r, k, WIN_LENGTH);
      var i := Cell(c, r);
      assert i < WIDTH && Line(b.position, i, DIRECTIONS[k], WIN_LENGTH);
      assert exists k', i' :: 0 <= k' < |DIRECTIONS| && 0 <= i' < WIDTH && Line(b.position, i', DIRECTIONS[k'], WIN_LENGTH);
      assert HasWinner(b);
    }
  }

  // ---- too few stones for a win ---------------------------------------------

  /** Four bits in a row at a positive stride are four distinct set bits, so
      a word with at most three set bits, `p`, `q` and `r`, has no line. */
  lemma ThreeBitsNoLine(x: Word, i: nat, d: nat, p: nat, q: nat, r: nat)
    requires 0 < d
    requires forall j :: 0 <= j < WIDTH && x[j] ==> j == p || j == q || j == r
    ensures !Line(x, i, d, WIN_LENGTH)
  {
  }

  /** A last mover with at most three stones, `p`, `q` and `r`, has not won. */
  lemma ThreeStonesNoWinner(b: Board, p: nat, q: nat, r: nat)
    requires forall j :: 0 <= j < WIDTH && b.position[j] ==> j == p || j == q || j == r
    ensures !HasWinner(b)
  {
    HasWinnerIffLine(b);
    forall k, i | 0 <= k < |DIRECTIONS| && 0 <= i < WIDTH
      ensures !Line(b.position, i, DIRECTIONS[k], WIN_LENGTH)
    {
      ThreeBitsNoLine(b.position, i, DIRECTIONS[k], p, q, r);
    }
  }
}
