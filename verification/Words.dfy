/** Fixed-width unsigned words, written out over unbounded integers, and a few shared helpers. */
module Words {

  const U8: int := 0x100
  const U16: int := 0x1_0000
  const U32: int := 0x1_0000_0000

  type uint8 = x: int | 0 <= x < U8
  type uint16 = x: int | 0 <= x < U16
  type uint32 = x: int | 0 <= x < U32
  type byte = uint8

  datatype Option<+T> = None | Some(value: T)

  /** The C expression `a - b` on two uint32_t values. */
  function Sub32(a: uint32, b: uint32): uint32 {
    (a - b) % U32
  }

  /**
   * What a 32-bit difference of two clock readings says about the unbounded
   * clock behind them: it never exceeds the true distance, and it is the true
   * distance as long as that fits in a word.
   */
  lemma ElapsedWord(t0: nat, t1: nat)
    requires t0 <= t1
    ensures Sub32(t1 % U32, t0 % U32) <= t1 - t0
    ensures t1 - t0 < U32 ==> Sub32(t1 % U32, t0 % U32) == t1 - t0
  {
    var q0, q1 := t0 / U32, t1 / U32;
    var d := t1 % U32 - t0 % U32;
    assert t1 - t0 == (q1 - q0) * U32 + d;
    assert q0 <= q1;
    if d < 0 {
      assert d % U32 == d + U32;
    } else {
      assert d % U32 == d;
    }
  }

  lemma Multiples(m: int, k: int)
    requires m > 0
    ensures k >= 1 ==> m * k >= m
    ensures k <= -1 ==> m * k <= -m
  {
    assert m * k == m + m * (k - 1);
    assert m * k == m * (k + 1) - m;
  }

  /** Quotient and remainder are the only pair that recomposes `x`. */
  lemma DivModUnique(x: int, m: int, q: int, r: int)
    requires 0 <= r < m && x == m * q + r
    ensures x / m == q && x % m == r
  {
    var k := q - x / m;
    assert m * k == x % m - r;
    Multiples(m, k);
  }

  /** Reducing a summand first does not change a 32-bit sum. */
  lemma AddWraps(x: int, y: int)
    ensures (x % U32 + y) % U32 == (x + y) % U32
  {
    var s := x % U32 + y;
    DivModUnique(x + y, U32, x / U32 + s / U32, s % U32);
  }

  /** All parts of a sequence of sequences, one after the other. */
  function Concat<T>(parts: seq<seq<T>>): seq<T> {
    if parts == [] then [] else Concat(parts[..|parts| - 1]) + parts[|parts| - 1]
  }

  lemma {:induction false} ConcatSplits<T>(parts: seq<seq<T>>, k: nat)
    requires k <= |parts|
    ensures Concat(parts) == Concat(parts[..k]) + Concat(parts[k..])
    decreases |parts|
  {
    var n := |parts| - 1;
    if k == |parts| {
      assert parts[..k] == parts;
    } else {
      ConcatSplits(parts[..n], k);
      assert parts[..n][..k] == parts[..k];
      assert parts[k..][..n - k] == parts[..n][k..];
    }
  }

  lemma {:induction false} ConcatEmpty<T>(parts: seq<seq<T>>)
    ensures Concat(parts) == [] <==> forall k :: 0 <= k < |parts| ==> parts[k] == []
    decreases |parts|
  {
    if parts != [] {
      var n := |parts| - 1;
      ConcatEmpty(parts[..n]);
      assert forall k :: 0 <= k < n ==> parts[..n][k] == parts[k];
    }
  }
}
