/** The 64-bit unsigned words (`uint64_t`) the board is packed into, as the
    sequence of their bits, least significant first, together with the
    handful of operators the board code applies to them: `|`, `&`, `^`,
    `>>` by a constant stride, `UINT64_C(1) << i` and a population count. */
module Words {
  const WIDTH: nat := 64

  type Word = w: seq<bool> | |w| == WIDTH witness seq(WIDTH, _ => false)

  /** `0`. */
  function Zero(): (z: Word)
    ensures forall k :: 0 <= k < WIDTH ==> !z[k]
  {
    seq(WIDTH, _ => false)
  }

  /** `UINT64_C(1) << i`: the word whose only set bit is `i`. */
  function Bit(i: nat): (w: Word)
    requires i < WIDTH
    ensures forall k :: 0 <= k < WIDTH ==> (w[k] <==> k == i)
  {
    seq(WIDTH, k => k == i)
  }

  /** `x | y`. */
  function Or(x: Word, y: Word): (w: Word)
    ensures forall k {:trigger w[k]} :: 0 <= k < WIDTH ==> (w[k] <==> x[k] || y[k])
  {
    seq(WIDTH, k requires 0 <= k < WIDTH => x[k] || y[k])
  }

  /** `x & y`. */
  function And(x: Word, y: Word): (w: Word)
    ensures forall k {:trigger w[k]} :: 0 <= k < WIDTH ==> (w[k] <==> x[k] && y[k])
  {
    seq(WIDTH, k requires 0 <= k < WIDTH => x[k] && y[k])
  }

  /** `x ^ y`. */
  function Xor(x: Word, y: Word): (w: Word)
    ensures forall k {:trigger w[k]} :: 0 <= k < WIDTH ==> (w[k] <==> x[k] != y[k])
  {
    seq(WIDTH, k requires 0 <= k < WIDTH => x[k] != y[k])
  }

  /** `x >> d` for a shift inside the word: bit `k` receives bit `k + d`, and
      zeroes come in at the top. */
  function ShiftRight(x: Word, d: nat): (w: Word)
    requires d < WIDTH
    ensures forall k :: 0 <= k < WIDTH ==> (w[k] <==> k + d < WIDTH && x[k + d])
  {
    seq(WIDTH, k requires 0 <= k < WIDTH => k + d < WIDTH && x[k + d])
  }

  /** `x != 0`. */
  predicate NonZero(x: Word)
  {
    exists k :: 0 <= k < WIDTH && x[k]
  }

  /** Number of `true` entries of `s` from index `i` on. */
  function CountFrom(s: seq<bool>, i: nat): (n: nat)
    requires i <= |s|
    ensures n <= |s| - i
    decreases |s| - i
  {
    if i == |s| then 0 else (if s[i] then 1 else 0) + CountFrom(s, i + 1)
  }

  /** `POP_COUNT(x)`: the number of set bits. */
  function Popcount(x: Word): (n: nat)
  {
    CountFrom(x, 0)
  }

  // ---- counting ------------------------------------------------------------

  /** Setting one clear entry adds one to the count of every suffix that
      holds it. */
  lemma {:induction false} CountSet(s: seq<bool>, j: nat, i: nat)
    requires j < |s| && !s[j] && i <= |s|
    ensures CountFrom(s[j := true], i) == CountFrom(s, i) + (if i <= j then 1 else 0)
    decreases |s| - i
  {
    if i < |s| {
      CountSet(s, j, i + 1);
    }
  }

  /** A suffix with no `true` entry counts zero. */
  lemma {:induction false} CountNone(s: seq<bool>, i: nat)
    requires i <= |s|
    requires forall k :: i <= k < |s| ==> !s[k]
    ensures CountFrom(s, i) == 0
    decreases |s| - i
  {
    if i < |s| {
      CountNone(s, i + 1);
    }
  }

  /** A suffix whose `true` entries are exactly the indices in `[lo, hi)`
      counts those of them from `i` on. */
  lemma {:induction false} CountInterval(s: seq<bool>, lo: nat, hi: nat, i: nat)
    requires lo <= hi <= |s| && i <= |s|
    requires forall k :: i <= k < |s| ==> (s[k] <==> lo <= k < hi)
    ensures CountFrom(s, i) == if i <= lo then hi - lo else if i <= hi then hi - i else 0
    decreases |s| - i
  {
    if i < |s| {
      CountInterval(s, lo, hi, i + 1);
    }
  }

  /** Entrywise implication gives an ordered count. */
  lemma {:induction false} CountMonotone(s: seq<bool>, t: seq<bool>, i: nat)
    requires |s| == |t| && i <= |s|
    requires forall k :: i <= k < |s| && s[k] ==> t[k]
    ensures CountFrom(s, i) <= CountFrom(t, i)
    decreases |s| - i
  {
    if i < |s| {
      CountMonotone(s, t, i + 1);
    }
  }

  /** Adding a bit that was clear raises the population count by one. */
  lemma PopcountSetBit(x: Word, j: nat)
    requires j < WIDTH && !x[j]
    ensures Popcount(Or(x, Bit(j))) == Popcount(x) + 1
  {
    assert Or(x, Bit(j)) == x[j := true];
    CountSet(x, j, 0);
  }

  /** The empty word has no set bit. */
  lemma PopcountZero()
    ensures Popcount(Zero()) == 0
  {
    CountNone(Zero(), 0);
  }

  /** `(x ^ y) ^ y == x`. */
  lemma XorTwice(x: Word, y: Word)
    ensures Xor(Xor(x, y), y) == x
  {
    assert forall k :: 0 <= k < WIDTH ==> Xor(Xor(x, y), y)[k] == x[k];
  }
}
