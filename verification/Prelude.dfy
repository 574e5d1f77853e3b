/** Outcomes, Go's 64-bit integers (range, wrap-around and division), and reordered
    sequences. */
module Prelude {

  datatype Option<+T> = None | Some(value: T)

  datatype Result<+T, +E> = Ok(value: T) | Err(error: E)

  const MAX_INT64: int := 0x7fff_ffff_ffff_ffff
  const MIN_INT64: int := -0x8000_0000_0000_0000
  const TWO_64: int := 0x1_0000_0000_0000_0000

  predicate Fits(x: int) {
    MIN_INT64 <= x <= MAX_INT64
  }

  /** The int64 that Go arithmetic leaves when the exact result is x. */
  function Wrap(x: int): (r: int)
    ensures Fits(r) && (Fits(x) ==> r == x)
  {
    (x - MIN_INT64) % TWO_64 + MIN_INT64
  }

  /** int64 addition. */
  function Plus64(x: int, y: int): int {
    Wrap(x + y)
  }

  /** int64 subtraction. */
  function Minus64(x: int, y: int): int {
    Wrap(x - y)
  }

  function Abs(x: int): nat {
    if x < 0 then -x else x
  }

  /** Go's `/`, which truncates toward zero (Dafny's is Euclidean). */
  function TruncDiv(a: int, b: int): int
    requires b > 0
  {
    if a >= 0 then a / b else -((-a) / b)
  }

  /** Go's `%`, whose sign follows the dividend. */
  function TruncMod(a: int, b: int): int
    requires b > 0
  {
    a - TruncDiv(a, b) * b
  }

  lemma {:induction false} WrapIs(x: int) returns (k: int)
    ensures x == Wrap(x) + k * TWO_64
  {
    k := (x - MIN_INT64) / TWO_64;
  }

  /** Only one value in range is a multiple of 2^64 away. */
  lemma {:induction false} WrapUnique(x: int, r: int, k: int)
    requires Fits(r) && x == r + k * TWO_64
    ensures Wrap(x) == r
  {
    var l := WrapIs(x);
    assert (k - l) * TWO_64 == k * TWO_64 - l * TWO_64;
    assert k == l;
  }

  lemma {:induction false} WrapShift(x: int, k: int)
    ensures Wrap(x + k * TWO_64) == Wrap(x)
  {
    var l := WrapIs(x);
    assert (k + l) * TWO_64 == k * TWO_64 + l * TWO_64;
    WrapUnique(x + k * TWO_64, Wrap(x), k + l);
  }

  /** Wrapped sums and differences only depend on their operands modulo 2^64. */
  lemma {:induction false} WrapAdd(x: int, y: int)
    ensures Wrap(Wrap(x) + y) == Wrap(x + y)
    ensures Wrap(y - Wrap(x)) == Wrap(y - x)
  {
    var k := WrapIs(x);
    WrapShift(Wrap(x) + y, k);
    WrapShift(y - x, k);
  }

  /** Sums and differences of wrapped terms. */
  lemma {:induction false} PlusWraps(x: int, y: int, wx: int, wy: int)
    requires wx == Wrap(x) && wy == Wrap(y)
    ensures Plus64(wx, wy) == Wrap(x + y)
  {
    WrapAdd(x, wy);
    WrapAdd(y, x);
  }

  lemma {:induction false} MinusWraps(x: int, y: int, wx: int, wy: int)
    requires wx == Wrap(x) && wy == Wrap(y)
    ensures Minus64(wx, wy) == Wrap(x - y)
  {
    WrapAdd(x, -wy);
    WrapAdd(y, x);
  }

  /** Equal modulo 2^64. */
  predicate Same(x: int, y: int) {
    (x - y) % TWO_64 == 0
  }

  lemma {:induction false} SameWraps(x: int, y: int)
    ensures Same(x, y) <==> Wrap(x) == Wrap(y)
    ensures Same(Wrap(x), x)
  {
    var k := WrapIs(x);
    var l := WrapIs(y);
    if Same(x, y) {
      WrapShift(y, (x - y) / TWO_64);
    }
    if Wrap(x) == Wrap(y) {
      assert x - y == (k - l) * TWO_64;
    }
    assert Wrap(x) - x == (-k) * TWO_64;
  }

  lemma {:induction false} SameSum(a: int, a': int, b: int, b': int)
    requires Same(a, a') && Same(b, b')
    ensures Same(a + b, a' + b') && Same(a - b, a' - b')
  {
    var k, l := (a - a') / TWO_64, (b - b') / TWO_64;
    assert a - a' == k * TWO_64 && b - b' == l * TWO_64;
    assert (a + b) - (a' + b') == (k + l) * TWO_64 && (a - b) - (a' - b') == (k - l) * TWO_64;
  }

  /** A step of a running int64 sum drops a multiple of 2^64. */
  lemma {:induction false} WrappedTwice(g: int, x: int) returns (k: int)
    ensures g + x == Plus64(g, Wrap(x)) + k * TWO_64
  {
    var a := WrapIs(x);
    var b := WrapIs(g + Wrap(x));
    k := a + b;
    assert k * TWO_64 == a * TWO_64 + b * TWO_64;
  }

  // ---- Sequences in another order ----

  lemma {:induction false} RemoveAt<T>(ys: seq<T>, k: nat)
    requires k < |ys|
    ensures multiset(ys[..k] + ys[k + 1..]) == multiset(ys) - multiset{ys[k]}
  {
    assert ys == ys[..k] + [ys[k]] + ys[k + 1..];
  }

  /** Where the last element of xs stands in ys. */
  lemma {:induction false} MatchLast<T>(xs: seq<T>, ys: seq<T>) returns (k: nat)
    requires multiset(xs) == multiset(ys) && xs != []
    ensures k < |ys| && ys[k] == xs[|xs| - 1]
    ensures multiset(xs[..|xs| - 1]) == multiset(ys[..k] + ys[k + 1..])
  {
    var n := |xs| - 1;
    assert xs[n] in multiset(ys);
    k :| 0 <= k < |ys| && ys[k] == xs[n];
    RemoveAt(ys, k);
    RemoveAt(xs, n);
    assert xs[..n] + xs[n + 1..] == xs[..n];
  }
}
