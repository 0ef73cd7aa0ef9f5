/** The changes the search makes to the shared board, in order, and the
    stack discipline they keep: every `push` is undone by a `pop` of the same
    column, properly nested, with a bounded number outstanding. */
module Trace {
  import opened Options
  import opened BoardState

  /** One change to the shared board. */
  datatype Op = PushOp(column: nat) | PopOp(column: nat)

  /** Replays `t` from index `i` on against the stack of columns pushed and
      not yet popped (top at the end), allowing at most `limit` of them at
      any time. */
  function Unwind(stack: seq<nat>, t: seq<Op>, i: nat, limit: nat): (r: Option<seq<nat>>)
    requires i <= |t|
    decreases |t| - i
  {
    if i == |t| then Some(stack)
    else match t[i]
      case PushOp(c) =>
        if |stack| < limit then Unwind(stack + [c], t, i + 1, limit) else None
      case PopOp(c) =>
        if |stack| > 0 && stack[|stack| - 1] == c then Unwind(stack[..|stack| - 1], t, i + 1, limit)
        else None
  }

  /** Starting from an untouched board, `t` pops exactly what it pushes, in
      reverse order, and never has more than `limit` pushes outstanding. */
  predicate Disciplined(t: seq<Op>, limit: nat)
  {
    Unwind([], t, 0, limit) == Some([])
  }

  /** Replaying the tail `b` of `a + b` is replaying `b`. */
  lemma {:induction false} UnwindShift(stack: seq<nat>, a: seq<Op>, b: seq<Op>, j: nat, limit: nat)
    requires j <= |b|
    ensures Unwind(stack, a + b, |a| + j, limit) == Unwind(stack, b, j, limit)
    decreases |b| - j
  {
    if j < |b| {
      assert (a + b)[|a| + j] == b[j];
      match b[j]
      case PushOp(c) =>
        UnwindShift(stack + [c], a, b, j + 1, limit);
      case PopOp(c) =>
        if |stack| > 0 {
          UnwindShift(stack[..|stack| - 1], a, b, j + 1, limit);
        }
    }
  }

  /** Replaying `a + b` is replaying `a`, then `b` from where `a` left off. */
  lemma {:induction false} UnwindAppend(stack: seq<nat>, a: seq<Op>, b: seq<Op>, i: nat, limit: nat)
    requires i <= |a|
    ensures Unwind(stack, a + b, i, limit)
         == match Unwind(stack, a, i, limit)
              case None => None
              case Some(s) => Unwind(s, b, 0, limit)
    decreases |a| - i
  {
    if i < |a| {
      assert (a + b)[i] == a[i];
      match a[i]
      case PushOp(c) =>
        UnwindAppend(stack + [c], a, b, i + 1, limit);
      case PopOp(c) =>
        if |stack| > 0 {
          UnwindAppend(stack[..|stack| - 1], a, b, i + 1, limit);
        }
    } else {
      UnwindShift(stack, a, b, 0, limit);
    }
  }

  /** A replay that works on its own also works under more outstanding
      pushes, given that much more room. */
  lemma {:induction false} UnwindLift(base: seq<nat>, stack: seq<nat>, t: seq<Op>, i: nat, limit: nat, result: seq<nat>)
    requires i <= |t|
    requires Unwind(stack, t, i, limit) == Some(result)
    ensures Unwind(base + stack, t, i, limit + |base|) == Some(base + result)
    decreases |t| - i
  {
    if i < |t| {
      match t[i]
      case PushOp(c) =>
        assert base + stack + [c] == base + (stack + [c]);
        UnwindLift(base, stack + [c], t, i + 1, limit, result);
      case PopOp(c) =>
        assert (base + stack)[..|base + stack| - 1] == base + stack[..|stack| - 1];
        UnwindLift(base, stack[..|stack| - 1], t, i + 1, limit, result);
    }
  }

  /** Two disciplined traces in a row are disciplined. */
  lemma DisciplinedConcat(a: seq<Op>, b: seq<Op>, limit: nat)
    requires Disciplined(a, limit) && Disciplined(b, limit)
    ensures Disciplined(a + b, limit)
  {
    UnwindAppend([], a, b, 0, limit);
  }

  /** A push of `column`, then `t`, then the matching pop. */
  function Bracket(column: nat, t: seq<Op>): (whole: seq<Op>)
    ensures |whole| == |t| + 2
    ensures whole[0] == PushOp(column) && whole[|whole| - 1] == PopOp(column)
  {
    seq(|t| + 2, i requires 0 <= i < |t| + 2 =>
      if i == 0 then PushOp(column) else if i == |t| + 1 then PopOp(column) else t[i - 1])
  }

  /** A push, a trace disciplined one level down, and the matching pop make a
      disciplined trace. */
  lemma DisciplinedBracket(column: nat, t: seq<Op>, limit: nat)
    requires 0 < limit && Disciplined(t, limit - 1)
    ensures Disciplined(Bracket(column, t), limit)
  {
    var push, pop := [PushOp(column)], [PopOp(column)];
    var whole := push + t + pop;
    assert Bracket(column, t) == whole;
    assert whole == push + (t + pop);
    assert [] + [column] == [column];
    assert Unwind([], whole, 0, limit) == Unwind([column], whole, 1, limit);
    UnwindShift([column], push, t + pop, 0, limit);
    UnwindLift([column], [], t, 0, limit - 1, []);
    assert [column] + [] == [column];
    UnwindAppend([column], t, pop, 0, limit);
    assert Unwind([column], pop, 0, limit) == Unwind([], pop, 1, limit);
  }

  // ---- what a trace does to the board -----------------------------------------

  /** Applies the changes of `t` from index `i` on to `b`: `push` where
      `can_push` allows it, `pop` where the column holds a stone, and
      `None` at the first change that is not allowed. */
  function ReplayFrom(b: Board, t: seq<Op>, i: nat): (r: Option<Board>)
    requires i <= |t|
    decreases |t| - i
  {
    if i == |t| then Some(b)
    else if !WellFormed(b) then None
    else match t[i]
      case PushOp(c) =>
        if CanPush(b, c) then ReplayFrom(Push(b, c), t, i + 1) else None
      case PopOp(c) =>
        if c < COLUMNS && b.remaining[c] < ROWS then ReplayFrom(Pop(b, c), t, i + 1) else None
  }

  /** The board `t` leaves when applied to `b`, if every change is allowed. */
  function Replay(b: Board, t: seq<Op>): (r: Option<Board>)
  {
    ReplayFrom(b, t, 0)
  }

  /** Applying the tail `u` of `a + u` is applying `u`. */
  lemma {:induction false} ReplayShift(b: Board, a: seq<Op>, u: seq<Op>, j: nat)
    requires j <= |u|
    ensures ReplayFrom(b, a + u, |a| + j) == ReplayFrom(b, u, j)
    decreases |u| - j
  {
    if j < |u| && WellFormed(b) {
      assert (a + u)[|a| + j] == u[j];
      match u[j]
      case PushOp(c) =>
        if CanPush(b, c) {
          ReplayShift(Push(b, c), a, u, j + 1);
        }
      case PopOp(c) =>
        if c < COLUMNS && b.remaining[c] < ROWS {
          ReplayShift(Pop(b, c), a, u, j + 1);
        }
    }
  }

  /** Applying `a + u` is applying `a`, then `u` to the board `a` leaves. */
  lemma {:induction false} ReplayAppend(b: Board, a: seq<Op>, u: seq<Op>, i: nat)
    requires i <= |a|
    ensures ReplayFrom(b, a + u, i)
         == match ReplayFrom(b, a, i)
              case None => None
              case Some(m) => ReplayFrom(m, u, 0)
    decreases |a| - i
  {
    if i < |a| {
      if WellFormed(b) {
        assert (a + u)[i] == a[i];
        match a[i]
        case PushOp(c) =>
          if CanPush(b, c) {
            ReplayAppend(Push(b, c), a, u, i + 1);
          }
        case PopOp(c) =>
          if c < COLUMNS && b.remaining[c] < ROWS {
            ReplayAppend(Pop(b, c), a, u, i + 1);
          }
      }
    } else {
      ReplayShift(b, a, u, 0);
    }
  }

  /** Two traces that each give the board back give it back in a row. */
  lemma ReplayConcat(b: Board, a: seq<Op>, u: seq<Op>)
    requires Replay(b, a) == Some(b) && Replay(b, u) == Some(b)
    ensures Replay(b, a + u) == Some(b)
  {
    ReplayAppend(b, a, u, 0);
  }

  /** A legal push into an empty slot, a trace that gives the pushed board
      back, and the matching pop give the board back. */
  lemma ReplayBracket(b: Board, column: nat, t: seq<Op>)
    requires WellFormed(b) && CanPush(b, column) && !b.mask[PushSlot(b, column)]
    requires Replay(Push(b, column), t) == Some(Push(b, column))
    ensures Replay(b, Bracket(column, t)) == Some(b)
  {
    var p := Push(b, column);
    var push, pop := [PushOp(column)], [PopOp(column)];
    assert Bracket(column, t) == push + (t + pop);
    assert ReplayFrom(b, push + (t + pop), 0) == ReplayFrom(p, push + (t + pop), 1);
    ReplayShift(p, push, t + pop, 0);
    ReplayAppend(p, t, pop, 0);
    PopAfterPush(b, column);
    assert ReplayFrom(p, pop, 0) == ReplayFrom(b, pop, 1);
  }
}
