/** The test `next_move_prevent_one_loss…` of
    games/connect_four/state_tests.cpp: a fresh board seeded with columns
    3, 2, 3, 3, 2, and a fresh agent asked for the column to push there. */
module StateTests {
  import opened Words
  import opened BoardState
  import opened BoardInvariants
  import opened Winner
  import opened Agent

  /** The columns the tests seed before asking for a move. */
  const TEST_MOVES: seq<nat> := [3, 2, 3, 3, 2]

  /** Seeding the test's columns is five pushes, and the last mover's stones
      are at bits 15, 21 and 22: column 2 row 1, and column 3 rows 0 and 1. */
  lemma TestSeed()
    ensures Playable(Initial(), TEST_MOVES)
    ensures Seed(Initial(), TEST_MOVES) == Push(Push(Push(Push(Push(Initial(), 3), 2), 3), 3), 2)
    ensures forall j :: 0 <= j < WIDTH && Seed(Initial(), TEST_MOVES).position[j] ==> j == 15 || j == 21 || j == 22
  {
    var b1 := Push(Initial(), 3);
    var b2 := Push(b1, 2);
    var b3 := Push(b2, 3);
    var b4 := Push(b3, 3);
    var b5 := Push(b4, 2);
    assert Playable(b4, [2]) && Seed(b4, [2]) == b5 by {
      assert [2][1..] == [];
    }
    assert Playable(b3, [3, 2]) && Seed(b3, [3, 2]) == b5 by {
      assert [3, 2][1..] == [2];
    }
    assert Playable(b2, [3, 3, 2]) && Seed(b2, [3, 3, 2]) == b5 by {
      assert [3, 3, 2][1..] == [3, 2];
    }
    assert Playable(b1, [2, 3, 3, 2]) && Seed(b1, [2, 3, 3, 2]) == b5 by {
      assert [2, 3, 3, 2][1..] == [3, 3, 2];
    }
    assert TEST_MOVES[1..] == [2, 3, 3, 2];
    assert forall j :: 0 <= j < WIDTH ==> (b1.mask[j] <==> j == 21) && (b1.position[j] <==> j == 21);
    assert forall j :: 0 <= j < WIDTH ==> (b2.mask[j] <==> j == 14 || j == 21) && (b2.position[j] <==> j == 14);
    assert forall j :: 0 <= j < WIDTH ==> (b3.mask[j] <==> j == 14 || j == 21 || j == 22) && (b3.position[j] <==> j == 21 || j == 22);
    assert forall j :: 0 <= j < WIDTH ==> (b4.mask[j] <==> j == 14 || j == 21 || j == 22 || j == 23) && (b4.position[j] <==> j == 14 || j == 23);
    assert forall j :: 0 <= j < WIDTH ==> (b5.position[j] <==> j == 15 || j == 21 || j == 22);
  }

  /** The position the tests seed, columns 3, 2, 3, 3, 2 from the empty
      board, is reachable, holds five stones and no winner, and column 0,
      the fresh agent's `_column`, is open there. */
  lemma TestOpening()
    ensures Playable(Initial(), TEST_MOVES)
    ensures Valid(Seed(Initial(), TEST_MOVES))
    ensures Seed(Initial(), TEST_MOVES).movesPlayed == 5
    ensures !HasWinner(Seed(Initial(), TEST_MOVES))
    ensures CanPush(Seed(Initial(), TEST_MOVES), 0)
  {
    TestSeed();
    InitialValid();
    SeedValid(Initial(), TEST_MOVES);
    ThreeStonesNoWinner(Seed(Initial(), TEST_MOVES), 15, 21, 22);
  }

  /** The test `next_move_prevent_one_loss…`: a fresh agent (`_column` 0)
      on the seeded position, as written, returns a column `can_push`
      accepts, so the test's `push(agent.next_move())` is legal, and the
      column attains the depth-10 value. */
  method TestNextMove() returns (move: nat)
    ensures CanPush(Seed(Initial(), TEST_MOVES), move)
    ensures -Negamax(AsWritten, Push(Seed(Initial(), TEST_MOVES), move), MAX_DEPTH - 1)
         == Negamax(AsWritten, Seed(Initial(), TEST_MOVES), MAX_DEPTH)
  {
    TestOpening();
    var after, trace;
    move, after, trace := OpeningNextMove(Seed(Initial(), TEST_MOVES), 0);
  }
}
