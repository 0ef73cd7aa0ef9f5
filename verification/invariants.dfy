/** What every board reached from the constructor or `reset` by legal pushes
    satisfies, and the facts about `push`, `pop`, `seed`, `is_tie` and
    `get_slot_state` that follow from it. */
module BoardInvariants {
  import opened Words
  import opened BoardState

  /** Stones in the first `n` columns, read off the column counters. */
  function Stones(remaining: seq<int>, n: nat): (stones: int)
    requires n <= |remaining|
  {
    if n == 0 then 0 else Stones(remaining, n - 1) + (ROWS - remaining[n - 1])
  }

  /** Gravity: each column holds exactly the rows below its next free slot,
      so the guard row (row `ROWS`) is never set. */
  predicate Stacked(b: Board)
    requires WellFormed(b)
  {
    forall c, r :: 0 <= c < COLUMNS && 0 <= r <= ROWS ==>
      (b.mask[Cell(c, r)] <==> r < ROWS - b.remaining[c])
  }

  /** No bit beyond the last column's block is set. */
  predicate AboveClear(b: Board)
  {
    forall i :: COLUMNS * (ROWS + 1) <= i < WIDTH ==> !b.mask[i]
  }

  /** `current_position` is a subset of `mask`. */
  predicate Contained(b: Board)
  {
    forall i :: 0 <= i < WIDTH && b.position[i] ==> b.mask[i]
  }

  /** The reachable-board invariant. */
  predicate Valid(b: Board)
  {
    && WellFormed(b)
    && Stacked(b)
    && AboveClear(b)
    && Contained(b)
    && b.movesPlayed == Stones(b.remaining, COLUMNS)
    && Popcount(b.mask) == b.movesPlayed
  }

  /** The part of `Valid` the tie test relies on: the move counter counts
      the stones the column counters record. */
  predicate Counted(b: Board)
  {
    WellFormed(b) && b.movesPlayed == Stones(b.remaining, COLUMNS)
  }

  // ---- counting stones -----------------------------------------------------

  /** Changing one counter changes the stone count by the difference. */
  lemma {:induction false} StonesUpdate(remaining: seq<int>, c: nat, v: int, n: nat)
    requires c < |remaining| && n <= |remaining|
    ensures Stones(remaining[c := v], n)
         == Stones(remaining, n) + (if c < n then remaining[c] - v else 0)
  {
    if n > 0 {
      StonesUpdate(remaining, c, v, n - 1);
    }
  }

  /** With every counter in `0..ROWS`, the first `n` columns hold between 0
      and `ROWS * n` stones, and the upper bound is met exactly when all of
      them are full. */
  lemma {:induction false} StonesRange(remaining: seq<int>, n: nat)
    requires n <= |remaining|
    requires forall c :: 0 <= c < n ==> 0 <= remaining[c] <= ROWS
    ensures 0 <= Stones(remaining, n) <= ROWS * n
    ensures Stones(remaining, n) == ROWS * n <==> forall c :: 0 <= c < n ==> remaining[c] == 0
  {
    if n > 0 {
      StonesRange(remaining, n - 1);
    }
  }

  /** Empty columns hold no stones. */
  lemma {:induction false} StonesEmpty(remaining: seq<int>, n: nat)
    requires n <= |remaining|
    requires forall c :: 0 <= c < n ==> remaining[c] == ROWS
    ensures Stones(remaining, n) == 0
  {
    if n > 0 {
      StonesEmpty(remaining, n - 1);
    }
  }

  /** Two cells of the board (guard row included) share a bit only if they
      are the same cell. */
  lemma CellInjective(c: nat, r: nat, c': nat, r': nat)
    requires r <= ROWS && r' <= ROWS
    ensures Cell(c, r) == Cell(c', r') <==> c == c' && r == r'
  {
  }

  // ---- the constructor, reset, push and seed keep the invariant ------------

  /** The constructor builds a valid board. */
  lemma InitialValid()
    ensures Valid(Initial())
  {
    var b := Initial();
    StonesEmpty(b.remaining, COLUMNS);
    PopcountZero();
  }

  /** `reset` yields a valid board from any board. */
  lemma ResetValid(b: Board)
    ensures Valid(Reset(b))
  {
    var r := Reset(b);
    StonesEmpty(r.remaining, COLUMNS);
    PopcountZero();
  }

  /** A valid board holds at most 42 stones. */
  lemma MovesBound(b: Board)
    requires Valid(b)
    ensures b.movesPlayed <= ROWS * COLUMNS
  {
    StonesRange(b.remaining, COLUMNS);
  }

  /** A legal `push` keeps the board valid. It fills a slot that was empty,
      sets exactly that one new `mask` bit, and adds one to `moves_played`
      without wrapping. */
  lemma PushValid(b: Board, column: nat)
    requires Valid(b) && CanPush(b, column)
    ensures !b.mask[PushSlot(b, column)]
    ensures Valid(Push(b, column))
    ensures Push(b, column).movesPlayed == b.movesPlayed + 1
    ensures Popcount(Push(b, column).mask) == Popcount(b.mask) + 1
  {
    var r := Push(b, column);
    var slot := PushSlot(b, column);
    var h := ColumnHeight(b, column);
    assert b.mask[Cell(column, h)] <==> h < ROWS - b.remaining[column];
    MovesBound(b);
    StonesUpdate(b.remaining, column, b.remaining[column] - 1, COLUMNS);
    PopcountSetBit(b.mask, slot);
    forall c, row | 0 <= c < COLUMNS && 0 <= row <= ROWS
      ensures r.mask[Cell(c, row)] <==> row < ROWS - r.remaining[c]
    {
      CellInjective(c, row, column, h);
    }
  }

  /** `push` keeps the move counter in step with the column counters. */
  lemma PushCounted(b: Board, column: nat)
    requires Counted(b) && CanPush(b, column)
    ensures Counted(Push(b, column))
    ensures Push(b, column).movesPlayed == b.movesPlayed + 1
  {
    StonesRange(b.remaining, COLUMNS);
    StonesUpdate(b.remaining, column, b.remaining[column] - 1, COLUMNS);
  }

  /** On a valid board, `pop(c)` right after a legal `push(c)` restores all
      five fields. */
  lemma PopAfterPushValid(b: Board, column: nat)
    requires Valid(b) && CanPush(b, column)
    ensures Pop(Push(b, column), column) == b
  {
    PushValid(b, column);
    PopAfterPush(b, column);
  }

  /** `seed` with legal columns keeps the board valid and adds one stone per
      column. */
  lemma {:induction false} SeedValid(b: Board, moves: seq<nat>)
    requires Valid(b) && Playable(b, moves)
    ensures Valid(Seed(b, moves))
    ensures Seed(b, moves).movesPlayed == b.movesPlayed + |moves|
    decreases |moves|
  {
    if |moves| > 0 {
      PushValid(b, moves[0]);
      SeedValid(Push(b, moves[0]), moves[1..]);
    }
  }

  // ---- ties -----------------------------------------------------------------

  /** `is_tie` as written never holds on a valid board: it needs 43 stones. */
  lemma IsTieAsWrittenNeverHolds(b: Board)
    requires Valid(b)
    ensures !IsTieAsWritten(b)
  {
    MovesBound(b);
  }

  /** The corrected tie test holds exactly when no column accepts a stone. */
  lemma IsTieIffFull(b: Board)
    requires Counted(b)
    ensures IsTie(b) <==> forall c :: 0 <= c < COLUMNS ==> !CanPush(b, c)
  {
    StonesRange(b.remaining, COLUMNS);
    if forall c :: 0 <= c < COLUMNS ==> !CanPush(b, c) {
      assert forall c :: 0 <= c < COLUMNS ==> b.remaining[c] == 0 by {
        forall c | 0 <= c < COLUMNS
          ensures b.remaining[c] == 0
        {
          assert !CanPush(b, c);
        }
      }
    }
  }

  /** From any valid board, legal pushes fill the board, at which point the
      corrected tie test holds and the as-written one still does not. */
  lemma {:induction false} FillBoard(b: Board) returns (moves: seq<nat>)
    requires Valid(b)
    ensures Playable(b, moves)
    ensures Valid(Seed(b, moves))
    ensures IsTie(Seed(b, moves)) && !IsTieAsWritten(Seed(b, moves))
    decreases ROWS * COLUMNS - b.movesPlayed
  {
    MovesBound(b);
    IsTieIffFull(b);
    if IsTie(b) {
      moves := [];
    } else {
      var c :| 0 <= c < COLUMNS && CanPush(b, c);
      PushValid(b, c);
      var rest := FillBoard(Push(b, c));
      moves := [c] + rest;
      assert moves[1..] == rest;
    }
    IsTieAsWrittenNeverHolds(Seed(b, moves));
  }

  /** The free slots of two different columns are no more than the empty
      cells of the board. */
  lemma FreeSlots(b: Board, c: nat, c': nat)
    requires Valid(b) && c < COLUMNS && c' < COLUMNS
    ensures c != c' ==> b.movesPlayed + b.remaining[c] + b.remaining[c'] <= ROWS * COLUMNS
  {
    if c != c' {
      var once := b.remaining[c := 0];
      StonesUpdate(b.remaining, c, 0, COLUMNS);
      StonesUpdate(once, c', 0, COLUMNS);
      StonesRange(once[c' := 0], COLUMNS);
    }
  }

  /** With 41 stones on a valid board, at most one column is still open. */
  lemma OnlyOpenColumn(b: Board, open: nat)
    requires Valid(b) && b.movesPlayed == ROWS * COLUMNS - 1 && CanPush(b, open)
    ensures forall c :: 0 <= c < COLUMNS && CanPush(b, c) ==> c == open
  {
    forall c | 0 <= c < COLUMNS && CanPush(b, c)
      ensures c == open
    {
      FreeSlots(b, open, c);
    }
  }

  // ---- who owns which slot --------------------------------------------------

  /** Gravity in `get_slot_state` terms: a slot of a column is occupied
      exactly when it lies below the column's height. */
  lemma SlotOccupied(b: Board, row: nat, column: nat)
    requires Valid(b) && column < COLUMNS && row <= ROWS
    ensures GetSlotState(b, row, column) != Empty <==> row < ColumnHeight(b, column)
  {
  }

  /** After `push(c)`, the slot at the old height of `c` belongs to the
      player who moved; so `current_position` holds the last mover's stones. */
  lemma PushOwner(b: Board, column: nat)
    requires Valid(b) && CanPush(b, column)
    ensures GetSlotState(Push(b, column), ColumnHeight(b, column), column)
         == if b.turnPlayerOne then PlayerOne else PlayerTwo
  {
    PushValid(b, column);
  }

  /** `push` changes the owner of no other slot. */
  lemma PushKeepsOtherSlots(b: Board, column: nat, row: nat, c: nat)
    requires Valid(b) && CanPush(b, column)
    requires Cell(c, row) < WIDTH && Cell(c, row) != PushSlot(b, column)
    ensures GetSlotState(Push(b, column), row, c) == GetSlotState(b, row, c)
  {
  }
}
