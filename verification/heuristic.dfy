/** `score` (games/connect_four/state.h): the positional heuristic the search
    uses at its depth limit. For each direction it counts, for both players,
    the adjacent pairs, triples and fours of stones with the shift-and-AND
    trick of `has_winner`. Pairs minus triples is one per maximal run of at
    least two stones, and triples minus fours one per maximal run of at
    least three, so each run of two or more weighs 5 and each run of three
    or more weighs 2 more; a run of four weighs no more than one of three.
    The count of fours is kept but not weighed. */
module Scoring {
  import opened Words
  import opened BoardState
  import opened Winner

  /** How many bits `n` rounds of `x &= x >> d` leave: the runs of `n + 1`
      set bits at stride `d`. */
  function Runs(x: Word, d: nat, n: nat): (count: nat)
    requires d < WIDTH
  {
    Popcount(Run(x, d, n))
  }

  /** One direction's contribution to `connected_sequence_count[player]`:
      pairs minus triples, triples minus fours, fours. */
  function DirectionTally(x: Word, d: nat): (tally: seq<int>)
    requires d < WIDTH
    ensures |tally| == 3
  {
    [Runs(x, d, 1) - Runs(x, d, 2), Runs(x, d, 2) - Runs(x, d, 3), Runs(x, d, 3)]
  }

  /** Entrywise sum of two tallies. */
  function Add(t: seq<int>, u: seq<int>): (v: seq<int>)
    requires |t| == 3 && |u| == 3
    ensures |v| == 3
  {
    [t[0] + u[0], t[1] + u[1], t[2] + u[2]]
  }

  /** The tally after the first `n` directions. */
  function Tally(x: Word, n: nat): (t: seq<int>)
    requires n <= |DIRECTIONS|
    ensures |t| == 3
  {
    if n == 0 then [0, 0, 0]
    else
      Add(Tally(x, n - 1), DirectionTally(x, DIRECTIONS[n - 1]))
  }

  /** The weights `(WIN_LENGTH + 1) << 1` halved once and twice. */
  const PAIR_WEIGHTS: seq<int> := [5, 2]

  /** A player's weighted tally; the count of fours is not weighed. */
  function Weighted(t: seq<int>): (score: int)
    requires |t| == 3
  {
    PAIR_WEIGHTS[0] * t[0] + PAIR_WEIGHTS[1] * t[1]
  }

  /** The largest magnitude `score()` can take: every run count is at most
      64, in four directions, with weights 5 + 2. */
  const SCORE_BOUND: int := 7 * WIDTH * 4

  /** `score()`: the weighted tally of the player to move (the stones not in
      `current_position`) minus that of the player who moved last. It is
      bounded by `SCORE_BOUND` in magnitude. */
  function Heuristic(b: Board): (h: int)
    ensures -SCORE_BOUND <= h <= SCORE_BOUND
  {
    TallyRange(b.position, |DIRECTIONS|);
    TallyRange(Xor(b.position, b.mask), |DIRECTIONS|);
    -(Weighted(Tally(b.position, |DIRECTIONS|)) - Weighted(Tally(Xor(b.position, b.mask), |DIRECTIONS|)))
  }

  /** The running counts of one direction part-way through the
      `sequence_length` loop: entries below `s` are final, entry `s` holds
      the runs of `s + 2`, entries above are untouched. */
  function Partial(x: Word, d: nat, s: nat): (t: seq<int>)
    requires d < WIDTH && s <= 2
    ensures |t| == 3
  {
    if s == 0 then [Runs(x, d, 1), 0, 0]
    else if s == 1 then [Runs(x, d, 1) - Runs(x, d, 2), Runs(x, d, 2), 0]
    else DirectionTally(x, d)
  }

  /** One pass of the `direction` loop of `score()`: the runs of both
      players at stride `d` are added into their counts. */
  method CountDirection(mine: Word, theirs: Word, d: nat, c0: seq<int>, c1: seq<int>)
    returns (n0: seq<int>, n1: seq<int>)
    requires d < WIDTH && |c0| == 3 && |c1| == 3
    ensures n0 == Add(c0, DirectionTally(mine, d))
    ensures n1 == Add(c1, DirectionTally(theirs, d))
  {
    var player, opponent := mine, theirs;
    var shift := 1;
    while shift < WIN_LENGTH / 2
      invariant 1 <= shift <= WIN_LENGTH / 2
      invariant player == Run(mine, d, shift - 1)
      invariant opponent == Run(theirs, d, shift - 1)
    {
      player := And(player, ShiftRight(player, d));
      opponent := And(opponent, ShiftRight(opponent, d));
      shift := shift + 1;
    }
    var sequenceLength := 0;
    n0, n1 := c0[0 := c0[0] + Popcount(player)], c1[0 := c1[0] + Popcount(opponent)];
    while sequenceLength < WIN_LENGTH / 2
      invariant sequenceLength <= WIN_LENGTH / 2
      invariant player == Run(mine, d, sequenceLength + 1)
      invariant opponent == Run(theirs, d, sequenceLength + 1)
      invariant n0 == Add(c0, Partial(mine, d, sequenceLength))
      invariant n1 == Add(c1, Partial(theirs, d, sequenceLength))
    {
      player := And(player, ShiftRight(player, d));
      opponent := And(opponent, ShiftRight(opponent, d));
      var pieceCount, oppPieceCount := Popcount(player), Popcount(opponent);
      n0 := n0[sequenceLength := n0[sequenceLength] - pieceCount];
      n1 := n1[sequenceLength := n1[sequenceLength] - oppPieceCount];
      if sequenceLength + 1 <= WIN_LENGTH / 2 {
        n0 := n0[sequenceLength + 1 := n0[sequenceLength + 1] + pieceCount];
        n1 := n1[sequenceLength + 1 := n1[sequenceLength + 1] + oppPieceCount];
      }
      sequenceLength := sequenceLength + 1;
    }
  }

  /** The `player` loop of `score()`: the counts weighed, the first player's
      added and the second's subtracted. */
  method Weigh(counts: seq<seq<int>>) returns (score: int)
    requires |counts| == 2 && |counts[0]| == 3 && |counts[1]| == 3
    ensures score == Weighted(counts[0]) - Weighted(counts[1])
  {
    score := 0;
    var player := 0;
    while player < 2
      invariant player <= 2
      invariant score == if player == 0 then 0
                         else if player == 1 then Weighted(counts[0])
                         else Weighted(counts[0]) - Weighted(counts[1])
    {
      var weight := (WIN_LENGTH + 1) * 2;
      var multiplier := if player == 0 then 1 else -1;
      var base := score;
      var pairLength := 0;
      while pairLength < WIN_LENGTH / 2
        invariant pairLength <= WIN_LENGTH / 2
        invariant weight == if pairLength == 0 then 10 else if pairLength == 1 then 5 else 2
        invariant score == base + multiplier * (
          if pairLength == 0 then 0
          else if pairLength == 1 then 5 * counts[player][0]
          else 5 * counts[player][0] + 2 * counts[player][1])
      {
        weight := weight / 2;
        score := score + counts[player][pairLength] * weight * multiplier;
        pairLength := pairLength + 1;
      }
      player := player + 1;
    }
  }

  /** `score()`: counts for the player who moved last (`current_position`)
      and for the player to move (`current_position ^ mask`), weighed, and
      negated. */
  method Score(b: Board) returns (score: int)
    ensures score == Heuristic(b)
  {
    var mine, theirs := b.position, Xor(b.position, b.mask);
    var counts: seq<seq<int>> := [[0, 0, 0], [0, 0, 0]];
    var direction := 0;
    while direction < |DIRECTIONS|
      invariant direction <= |DIRECTIONS|
      invariant |counts| == 2
      invariant counts[0] == Tally(mine, direction)
      invariant counts[1] == Tally(theirs, direction)
    {
      var n0, n1 := CountDirection(mine, theirs, DIRECTIONS[direction], counts[0], counts[1]);
      counts := [n0, n1];
      assert counts[0] == Tally(mine, direction + 1);
      assert counts[1] == Tally(theirs, direction + 1);
      direction := direction + 1;
    }
    score := Weigh(counts);
    score := -score;
  }

  // ---- properties ------------------------------------------------------------

  /** Another round of `x &= x >> d` only removes bits. */
  lemma RunShrinks(x: Word, d: nat, n: nat)
    requires d < WIDTH
    ensures Runs(x, d, n + 1) <= Runs(x, d, n)
  {
    var y := Run(x, d, n);
    assert forall k :: 0 <= k < WIDTH && Run(x, d, n + 1)[k] ==> y[k];
    CountMonotone(Run(x, d, n + 1), y, 0);
  }

  /** Every entry of a tally lies between 0 and 64 per direction counted. */
  lemma {:induction false} TallyRange(x: Word, n: nat)
    requires n <= |DIRECTIONS|
    ensures forall j :: 0 <= j < 3 ==> 0 <= Tally(x, n)[j] <= WIDTH * n
  {
    if n > 0 {
      TallyRange(x, n - 1);
      var d := DIRECTIONS[n - 1];
      RunShrinks(x, d, 1);
      RunShrinks(x, d, 2);
    }
  }

  /** Swapping the players (`current_position ^= mask`) negates `score()`. */
  lemma HeuristicAntisymmetric(b: Board)
    ensures Heuristic(b.(position := Xor(b.position, b.mask))) == -Heuristic(b)
  {
    XorTwice(b.position, b.mask);
  }

  /** No stones, no runs. */
  lemma {:induction false} RunNone(x: Word, d: nat, n: nat)
    requires d < WIDTH
    requires forall k :: 0 <= k < WIDTH ==> !x[k]
    ensures forall k :: 0 <= k < WIDTH ==> !Run(x, d, n)[k]
  {
    if n > 0 {
      RunNone(x, d, n - 1);
    }
  }

  /** No stones, no tally. */
  lemma {:induction false} TallyNone(x: Word, n: nat)
    requires n <= |DIRECTIONS|
    requires forall k :: 0 <= k < WIDTH ==> !x[k]
    ensures Tally(x, n) == [0, 0, 0]
  {
    if n > 0 {
      TallyNone(x, n - 1);
      var d := DIRECTIONS[n - 1];
      RunNone(x, d, 1);
      RunNone(x, d, 2);
      RunNone(x, d, 3);
      CountNone(Run(x, d, 1), 0);
      CountNone(Run(x, d, 2), 0);
      CountNone(Run(x, d, 3), 0);
    }
  }

  /** The empty board, as built by the constructor or `reset`, scores 0. */
  lemma HeuristicEmpty(b: Board)
    requires b.mask == Zero() && b.position == Zero()
    ensures Heuristic(b) == 0
  {
    TallyNone(b.position, |DIRECTIONS|);
    TallyNone(Xor(b.position, b.mask), |DIRECTIONS|);
  }

  // ---- what a run weighs -----------------------------------------------------

  /** The word holding one run of `len` stones at stride 1, one column's
      stack, from bit `start`. */
  function Segment(start: nat, len: nat): (x: Word)
    requires start + len <= WIDTH
    ensures forall k :: 0 <= k < WIDTH ==> (x[k] <==> start <= k < start + len)
  {
    seq(WIDTH, k => start <= k < start + len)
  }

  /** After `n` rounds of `x &= x >> 1` a run keeps the bits that start
      `n + 1` stones of it. */
  lemma {:induction false} RunSegment(start: nat, len: nat, n: nat)
    requires start + len <= WIDTH
    ensures forall k :: 0 <= k < WIDTH ==> (Run(Segment(start, len), 1, n)[k] <==> start <= k && k + n < start + len)
  {
    if n > 0 {
      RunSegment(start, len, n - 1);
    }
  }

  /** A run of `len` stones holds `len - n` groups of `n + 1` in a row. */
  lemma SegmentRuns(start: nat, len: nat, n: nat)
    requires start + len <= WIDTH
    ensures Runs(Segment(start, len), 1, n) == if n < len then len - n else 0
  {
    RunSegment(start, len, n);
    CountInterval(Run(Segment(start, len), 1, n), start, if n < len then start + len - n else start, 0);
  }

  /** A lone run of `len` stones tallies one pair-or-longer once `len >= 2`,
      one triple-or-longer once `len >= 3`, and `len - 3` fours; so it
      weighs 5 as a pair and 7 as a triple, a four or anything longer. */
  lemma SegmentTally(start: nat, len: nat)
    requires start + len <= WIDTH
    ensures DirectionTally(Segment(start, len), 1)
      == [if len >= 2 then 1 else 0, if len >= 3 then 1 else 0, if len >= 4 then len - 3 else 0]
    ensures Weighted(DirectionTally(Segment(start, len), 1)) == (if len >= 2 then 5 else 0) + (if len >= 3 then 2 else 0)
  {
    SegmentRuns(start, len, 1);
    SegmentRuns(start, len, 2);
    SegmentRuns(start, len, 3);
  }
}
