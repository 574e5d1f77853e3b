/** Decimal numerals: Go's %d, %02d and strconv.ParseInt, and plain digit strings. */
module Decimal {
  import opened Prelude

  predicate IsDigit(c: char) {
    '0' <= c <= '9'
  }

  predicate AllDigits(s: string) {
    forall i :: 0 <= i < |s| ==> IsDigit(s[i])
  }

  function DigitOf(n: int): char
    requires 0 <= n < 10
  {
    '0' + n as char
  }

  function DigitValue(c: char): int
    requires IsDigit(c)
  {
    (c - '0') as int
  }

  /** The number a digit string denotes. */
  function Value(s: string): nat
    requires AllDigits(s)
  {
    if s == "" then 0 else Value(s[..|s| - 1]) * 10 + DigitValue(s[|s| - 1])
  }

  /** %d of a natural number. */
  function Show(n: nat): string {
    if n < 10 then [DigitOf(n)] else Show(n / 10) + [DigitOf(n % 10)]
  }

  /** %d */
  function ShowInt(x: int): string {
    if x < 0 then "-" + Show(-x) else Show(x)
  }

  /** %02d: a sign counts towards the width. */
  function ShowTwo(x: int): string {
    if 0 <= x < 10 then "0" + Show(x) else ShowInt(x)
  }

  /** Exactly w digits. */
  function Padded(n: nat, w: nat): string {
    if w == 0 then "" else Padded(n / 10, w - 1) + [DigitOf(n % 10)]
  }

  function PowerOfTen(w: nat): nat {
    if w == 0 then 1 else 10 * PowerOfTen(w - 1)
  }

  lemma {:induction false} ShowValue(n: nat)
    ensures Show(n) != "" && AllDigits(Show(n)) && Value(Show(n)) == n
    ensures n > 0 ==> Show(n)[0] != '0'
  {
    if n >= 10 {
      ShowValue(n / 10);
      assert Show(n)[..|Show(n)| - 1] == Show(n / 10);
    }
  }

  lemma {:induction false} PaddedValue(n: nat, w: nat)
    requires n < PowerOfTen(w)
    ensures |Padded(n, w)| == w && AllDigits(Padded(n, w)) && Value(Padded(n, w)) == n
  {
    if w > 0 {
      PaddedValue(n / 10, w - 1);
      assert Padded(n, w)[..w - 1] == Padded(n / 10, w - 1);
    }
  }

  lemma {:induction false} PaddedOfValue(s: string)
    requires AllDigits(s)
    ensures Padded(Value(s), |s|) == s
  {
    if s != "" {
      var n := |s| - 1;
      PaddedOfValue(s[..n]);
      assert s == s[..n] + [s[n]];
    }
  }

  lemma {:induction false} ValueAppend(s: string, t: string)
    requires AllDigits(s) && AllDigits(t)
    ensures AllDigits(s + t) && Value(s + t) == Value(s) * PowerOfTen(|t|) + Value(t)
  {
    if t == "" {
      assert s + t == s;
    } else {
      var n := |t| - 1;
      var u := s + t;
      ValueAppend(s, t[..n]);
      assert AllDigits(u);
      assert u[..|u| - 1] == s + t[..n] && u[|u| - 1] == t[n];
      assert Value(u) == Value(s + t[..n]) * 10 + DigitValue(t[n]);
      Distribute(Value(s), PowerOfTen(n), Value(t[..n]));
    }
  }

  lemma {:induction false} Distribute(a: int, b: int, c: int)
    ensures (a * b + c) * 10 == a * (10 * b) + c * 10
  {
  }

  lemma {:induction false} ValueBound(s: string)
    requires AllDigits(s)
    ensures Value(s) < PowerOfTen(|s|)
    ensures s != "" && s[0] != '0' ==> Value(s) >= PowerOfTen(|s| - 1)
  {
    if s != "" {
      ValueBound(s[..|s| - 1]);
    }
  }

  // ---- strconv.ParseInt(s, 10, 64) with its error ignored ----

  datatype Scan = Number(n: nat) | Syntax | Range

  /** The unsigned scan, left to right: the first problem met decides. */
  function ScanDigits(s: string): Scan {
    if s == "" then Number(0)
    else match ScanDigits(s[..|s| - 1])
      case Syntax => Syntax
      case Range => Range
      case Number(n) =>
        var c := s[|s| - 1];
        if !IsDigit(c) then Syntax
        else if n * 10 + DigitValue(c) >= TWO_64 then Range
        else Number(n * 10 + DigitValue(c))
  }

  /** 0 on a syntax error, the nearest bound when out of range. */
  function ParseInt(s: string): (x: int)
    ensures Fits(x)
  {
    var signed := s != "" && (s[0] == '-' || s[0] == '+');
    var neg := signed && s[0] == '-';
    var digits := if signed then s[1..] else s;
    if digits == "" then 0
    else match ScanDigits(digits)
      case Syntax => 0
      case Range => if neg then MIN_INT64 else MAX_INT64
      case Number(m) =>
        var n: int := m;
        if neg then (if n > -MIN_INT64 then MIN_INT64 else -n)
        else if n > MAX_INT64 then MAX_INT64 else n
  }

  lemma {:induction false} ScanIsValue(s: string)
    requires AllDigits(s) && Value(s) < TWO_64
    ensures ScanDigits(s) == Number(Value(s))
  {
    if s != "" {
      ScanIsValue(s[..|s| - 1]);
    }
  }

  /** Printing then parsing an int64 gives it back. */
  lemma {:induction false} ParseShowInt(x: int)
    requires Fits(x)
    ensures ParseInt(ShowInt(x)) == x
  {
    ShowValue(Abs(x));
    ScanIsValue(Show(Abs(x)));
    if x < 0 {
      assert ShowInt(x)[1..] == Show(-x);
    }
  }

  // ---- Cutting at a separator ----

  /** What is before and after the first character that is one of seps. */
  function CutAt(s: string, seps: string): (string, string) {
    if s == "" then ("", "")
    else if s[0] in seps then ("", s[1..])
    else
      var (before, after) := CutAt(s[1..], seps);
      ([s[0]] + before, after)
  }

  lemma {:induction false} CutNowhere(s: string, seps: string)
    requires forall i :: 0 <= i < |s| ==> s[i] !in seps
    ensures CutAt(s, seps) == (s, "")
  {
    if s != "" {
      CutNowhere(s[1..], seps);
      assert [s[0]] + s[1..] == s;
    }
  }

  lemma {:induction false} CutAfter(a: string, c: char, b: string, seps: string)
    requires c in seps && forall i :: 0 <= i < |a| ==> a[i] !in seps
    ensures CutAt(a + [c] + b, seps) == (a, b)
  {
    var u := a + [c] + b;
    if a == "" {
      assert u[1..] == b;
    } else {
      CutAfter(a[1..], c, b, seps);
      assert u[1..] == a[1..] + [c] + b;
      assert [a[0]] + a[1..] == a;
    }
  }
}
