/** Double-entry vouchers (verifikat): validation in wrapping arithmetic, reversal,
    and the per-account net that every report is built from. */
module Ledger {
  import opened Prelude

  datatype Line = Line(account: string, debit: int, credit: int, vatCode: string)

  /** A posted voucher. A date is the number YYYYMMDD, so dates order as numbers. */
  datatype Voucher = Voucher(series: string, number: int, date: int, text: string, lines: seq<Line>)

  datatype Fault = TooFewLines | NoAccount | Negative | LineSide | Overflow | Unbalanced

  function Debit(account: string, amount: int): Line {
    Line(account, amount, 0, "")
  }

  function Credit(account: string, amount: int): Line {
    Line(account, 0, amount, "")
  }

  // ---- Totals and the double-entry conditions, over unbounded integers ----

  function TotalDebit(lines: seq<Line>): int {
    if lines == [] then 0 else TotalDebit(lines[..|lines| - 1]) + lines[|lines| - 1].debit
  }

  function TotalCredit(lines: seq<Line>): int {
    if lines == [] then 0 else TotalCredit(lines[..|lines| - 1]) + lines[|lines| - 1].credit
  }

  /** A line names an account and has exactly one positive side. */
  predicate OneSided(l: Line) {
    l.account != "" && l.debit >= 0 && l.credit >= 0 && (l.debit == 0) != (l.credit == 0)
  }

  predicate DoubleEntry(lines: seq<Line>) {
    && |lines| >= 2
    && (forall i :: 0 <= i < |lines| ==> OneSided(lines[i]))
    && TotalDebit(lines) == TotalCredit(lines)
  }

  /** What a voucher must satisfy to be posted. */
  predicate Postable(lines: seq<Line>) {
    DoubleEntry(lines) && TotalDebit(lines) <= MAX_INT64
  }

  /** Amounts are int64 values. */
  ghost predicate LinesFit(lines: seq<Line>) {
    forall l :: l in lines ==> Fits(l.debit) && Fits(l.credit)
  }

  lemma {:induction false} LinesWithinTotal(lines: seq<Line>, i: nat)
    requires i < |lines| && forall k :: 0 <= k < |lines| ==> OneSided(lines[k])
    ensures 0 <= lines[i].debit <= TotalDebit(lines) && 0 <= lines[i].credit <= TotalCredit(lines)
  {
    var n := |lines| - 1;
    assert OneSided(lines[n]);
    TotalsNonNegative(lines[..n]);
    if i < n {
      LinesWithinTotal(lines[..n], i);
    }
  }

  // ---- Validate ----

  function LineFault(l: Line): Option<Fault> {
    if l.account == "" then Some(NoAccount)
    else if l.debit < 0 || l.credit < 0 then Some(Negative)
    else if (l.debit == 0) == (l.credit == 0) then Some(LineSide)
    else None
  }

  /** The fault of the first line that is bad by itself or takes a true running
      total past int64. */
  function FirstFault(lines: seq<Line>): Option<Fault> {
    if lines == [] then None
    else
      var earlier := FirstFault(lines[..|lines| - 1]);
      if earlier.Some? then earlier
      else if LineFault(lines[|lines| - 1]).Some? then LineFault(lines[|lines| - 1])
      else if TotalDebit(lines) > MAX_INT64 || TotalCredit(lines) > MAX_INT64 then Some(Overflow)
      else None
  }

  function Verdict(lines: seq<Line>): Option<Fault> {
    if |lines| < 2 then Some(TooFewLines)
    else if FirstFault(lines).Some? then FirstFault(lines)
    else if TotalDebit(lines) != TotalCredit(lines) then Some(Unbalanced)
    else None
  }

  /** The loop of Validate, in int64: a running total that turned negative is the
      only overflow test it has. It reports exactly the true first fault. */
  method Validate(lines: seq<Line>) returns (fault: Option<Fault>)
    requires LinesFit(lines)
    ensures fault == Verdict(lines)
    ensures fault.None? <==> Postable(lines)
  {
    VerdictAccepts(lines);
    if |lines| < 2 {
      return Some(TooFewLines);
    }
    var d, c := 0, 0;
    for i := 0 to |lines|
      invariant FirstFault(lines[..i]).None?
      invariant d == TotalDebit(lines[..i]) && 0 <= d <= MAX_INT64
      invariant c == TotalCredit(lines[..i]) && 0 <= c <= MAX_INT64
    {
      var l := lines[i];
      assert lines[..i + 1][..i] == lines[..i];
      FaultPersists(lines, i + 1);
      if l.account == "" {
        return Some(NoAccount);
      }
      if l.debit < 0 || l.credit < 0 {
        return Some(Negative);
      }
      if (l.debit == 0) == (l.credit == 0) {
        return Some(LineSide);
      }
      assert Fits(l.debit) && Fits(l.credit);
      d := Wrap(d + l.debit);
      c := Wrap(c + l.credit);
      if d < 0 || c < 0 {
        return Some(Overflow);
      }
    }
    assert lines[..|lines|] == lines;
    if d != c {
      return Some(Unbalanced);
    }
    return None;
  }

  lemma {:induction false} FaultPersists(lines: seq<Line>, k: nat)
    requires k <= |lines|
    ensures FirstFault(lines[..k]).Some? ==> FirstFault(lines) == FirstFault(lines[..k])
    decreases |lines| - k
  {
    if k < |lines| {
      assert lines[..k + 1][..k] == lines[..k];
      FaultPersists(lines, k + 1);
    } else {
      assert lines[..k] == lines;
    }
  }

  lemma {:induction false} FaultFree(lines: seq<Line>)
    ensures FirstFault(lines).None? <==>
              (forall i :: 0 <= i < |lines| ==> OneSided(lines[i])) && TotalDebit(lines) <= MAX_INT64
                && TotalCredit(lines) <= MAX_INT64
  {
    if lines != [] {
      var n := |lines| - 1;
      FaultFree(lines[..n]);
      assert forall i :: 0 <= i < n ==> lines[..n][i] == lines[i];
      if forall i :: 0 <= i < n ==> OneSided(lines[i]) {
        TotalsNonNegative(lines[..n]);
      }
    }
  }

  lemma {:induction false} TotalsNonNegative(lines: seq<Line>)
    requires forall i :: 0 <= i < |lines| ==> OneSided(lines[i])
    ensures TotalDebit(lines) >= 0 && TotalCredit(lines) >= 0
  {
    if lines != [] {
      TotalsNonNegative(lines[..|lines| - 1]);
    }
  }

  /** Validation accepts exactly the double entries whose totals fit in int64. */
  lemma {:induction false} VerdictAccepts(lines: seq<Line>)
    ensures Verdict(lines).None? <==> Postable(lines)
  {
    FaultFree(lines);
  }

  // ---- Which fault is reported ----

  /** The first thing wrong with a line, in the order they are looked for. */
  lemma {:induction false} LineFaultIs(l: Line)
    ensures LineFault(l) == Some(NoAccount) <==> |l.account| == 0
    ensures LineFault(l) == Some(Negative) <==> |l.account| > 0 && (l.debit < 0 || l.credit < 0)
    ensures LineFault(l) == Some(LineSide) <==>
              |l.account| > 0 && ((l.debit == 0 && l.credit == 0) || (l.debit > 0 && l.credit > 0))
    ensures LineFault(l).None? || LineFault(l).value in {NoAccount, Negative, LineSide}
  {
  }

  /** The first n lines are good, and no running total over them leaves int64. */
  ghost predicate CleanTo(lines: seq<Line>, n: nat)
    requires n <= |lines|
  {
    && (forall k :: 0 <= k < n ==> LineFault(lines[k]).None?)
    && (forall k :: 0 <= k <= n ==> TotalDebit(lines[..k]) <= MAX_INT64 && TotalCredit(lines[..k]) <= MAX_INT64)
  }

  lemma {:induction false} CleanPrefix(lines: seq<Line>, n: nat, k: nat)
    requires k <= n <= |lines|
    ensures CleanTo(lines[..n], k) <==> CleanTo(lines, k)
  {
    assert forall j :: 0 <= j <= k ==> lines[..n][..j] == lines[..j];
    assert forall j :: 0 <= j < k ==> lines[..n][j] == lines[j];
  }

  /** Line i is the first that is bad, or the first where a total leaves int64. */
  ghost predicate FailsAt(lines: seq<Line>, i: nat, fault: Fault)
    requires i < |lines|
  {
    && CleanTo(lines, i)
    && if LineFault(lines[i]).Some? then fault == LineFault(lines[i]).value
       else fault == Overflow && (TotalDebit(lines[..i + 1]) > MAX_INT64 || TotalCredit(lines[..i + 1]) > MAX_INT64)
  }

  lemma {:induction false} FirstFaultIs(lines: seq<Line>)
    ensures FirstFault(lines).Some? ==> exists i :: 0 <= i < |lines| && FailsAt(lines, i, FirstFault(lines).value)
    ensures FirstFault(lines).None? ==> CleanTo(lines, |lines|)
  {
    if lines == [] {
      assert lines[..0] == [];
    } else {
      var n := |lines| - 1;
      FirstFaultIs(lines[..n]);
      assert lines[..n + 1] == lines;
      if FirstFault(lines[..n]).Some? {
        var i :| 0 <= i < n && FailsAt(lines[..n], i, FirstFault(lines[..n]).value);
        CleanPrefix(lines, n, i);
        assert lines[..n][..i + 1] == lines[..i + 1];
        assert FailsAt(lines, i, FirstFault(lines).value);
      } else {
        CleanPrefix(lines, n, n);
        if FirstFault(lines).Some? {
          assert FailsAt(lines, n, FirstFault(lines).value);
        }
      }
    }
  }

  /** What validation reports: too few lines before all else, then what is wrong with
      the first bad line, and imbalance only if nothing else is. */
  lemma {:induction false} VerdictIs(lines: seq<Line>)
    ensures |lines| < 2 <==> Verdict(lines) == Some(TooFewLines)
    ensures Verdict(lines).Some? && Verdict(lines).value !in {TooFewLines, Unbalanced} ==>
              exists i :: 0 <= i < |lines| && FailsAt(lines, i, Verdict(lines).value)
    ensures Verdict(lines) == Some(Unbalanced) <==>
              && |lines| >= 2 && (forall i :: 0 <= i < |lines| ==> OneSided(lines[i]))
              && TotalDebit(lines) <= MAX_INT64 && TotalCredit(lines) <= MAX_INT64
              && TotalDebit(lines) != TotalCredit(lines)
  {
    FirstFaultIs(lines);
    FaultFree(lines);
    if FirstFault(lines).Some? {
      var i :| 0 <= i < |lines| && FailsAt(lines, i, FirstFault(lines).value);
      LineFaultIs(lines[i]);
    }
  }

  // ---- Net per account, per section of the chart, and overall ----

  datatype Class = UnknownClass | Asset | EquityOrLiability | Income | Expense | Financial

  /** The BAS class of an account, from its first digit. */
  function Classify(account: string): Class {
    if account == "" then UnknownClass
    else match account[0]
      case '1' => Asset
      case '2' => EquityOrLiability
      case '3' => Income
      case '4' | '5' | '6' | '7' => Expense
      case '8' => Financial
      case _ => UnknownClass
  }

  /** Classes by first digit. */
  lemma {:induction false} ClassesAre(a: string)
    ensures Classify("") == UnknownClass
    ensures Classify(a) == Asset <==> a != "" && a[0] == '1'
    ensures Classify(a) == EquityOrLiability <==> a != "" && a[0] == '2'
    ensures Classify(a) == Income <==> a != "" && a[0] == '3'
    ensures Classify(a) == Expense <==> a != "" && '4' <= a[0] <= '7'
    ensures Classify(a) == Financial <==> a != "" && a[0] == '8'
    ensures IsResult(Classify(a)) <==> a != "" && '3' <= a[0] <= '8'
    ensures IsBalance(Classify(a)) <==> a != "" && '1' <= a[0] <= '2'
  {
  }

  /** The selections by first digits. */
  lemma {:induction false} SelectionsAre(a: string, n: string)
    ensures Selects(One(n), a) <==> a == n
    ensures Selects(Equity, a) <==> |a| >= 2 && a[0] == '2' && a[1] == '0'
    ensures Selects(Liabilities, a) <==> |a| >= 1 && a[0] == '2' && (|a| == 1 || a[1] != '0')
    ensures Selects(Results, a) <==> |a| >= 1 && '3' <= a[0] <= '8'
    ensures Selects(All, a)
  {
    if |a| >= 2 {
      assert "20" <= a <==> a[..2] == "20";
    }
  }

  predicate IsResult(c: Class) {
    c == Income || c == Expense || c == Financial
  }

  predicate IsBalance(c: Class) {
    c == Asset || c == EquityOrLiability
  }

  /** Accounts 20xx are equity; the rest of class 2 are liabilities. */
  predicate IsEquity(account: string) {
    Classify(account) == EquityOrLiability && "20" <= account
  }

  /** A selection of accounts to total over. */
  datatype Accounts = One(number: string) | OfClass(cls: Class) | Equity | Liabilities | Results | All

  predicate Selects(w: Accounts, account: string) {
    match w
    case One(a) => account == a
    case OfClass(c) => Classify(account) == c
    case Equity => IsEquity(account)
    case Liabilities => Classify(account) == EquityOrLiability && !IsEquity(account)
    case Results => IsResult(Classify(account))
    case All => true
  }

  /** Debit minus credit over the selected accounts. */
  function NetOf(lines: seq<Line>, w: Accounts): int {
    if lines == [] then 0
    else NetOf(lines[..|lines| - 1], w) + Effect(lines[|lines| - 1], w)
  }

  function Effect(l: Line, w: Accounts): int {
    if Selects(w, l.account) then l.debit - l.credit else 0
  }

  lemma {:induction false} NetOfAppend(xs: seq<Line>, ys: seq<Line>, w: Accounts)
    ensures NetOf(xs + ys, w) == NetOf(xs, w) + NetOf(ys, w)
  {
    if ys == [] {
      assert xs + ys == xs;
    } else {
      var n := |ys| - 1;
      NetOfAppend(xs, ys[..n], w);
      assert (xs + ys)[..|xs + ys| - 1] == xs + ys[..n];
    }
  }

  lemma {:induction false} TotalsAppend(xs: seq<Line>, ys: seq<Line>)
    ensures TotalDebit(xs + ys) == TotalDebit(xs) + TotalDebit(ys)
            && TotalCredit(xs + ys) == TotalCredit(xs) + TotalCredit(ys)
  {
    if ys == [] {
      assert xs + ys == xs;
    } else {
      var n := |ys| - 1;
      TotalsAppend(xs, ys[..n]);
      assert (xs + ys)[..|xs + ys| - 1] == xs + ys[..n];
    }
  }

  lemma {:induction false} NetOfAbsent(lines: seq<Line>, w: Accounts)
    requires forall l :: l in lines ==> !Selects(w, l.account)
    ensures NetOf(lines, w) == 0
  {
    if lines != [] {
      NetOfAbsent(lines[..|lines| - 1], w);
    }
  }

  lemma {:induction false} NetOfAll(lines: seq<Line>)
    ensures NetOf(lines, All) == TotalDebit(lines) - TotalCredit(lines)
  {
    if lines != [] {
      NetOfAll(lines[..|lines| - 1]);
    }
  }

  lemma {:induction false} NetOfOne(a: Line, w: Accounts)
    ensures NetOf([a], w) == Effect(a, w) && TotalDebit([a]) == a.debit && TotalCredit([a]) == a.credit
  {
    assert [a][..0] == [];
  }

  lemma {:induction false} NetOfTwo(a: Line, b: Line, w: Accounts)
    ensures NetOf([a, b], w) == Effect(a, w) + Effect(b, w)
    ensures TotalDebit([a, b]) == a.debit + b.debit && TotalCredit([a, b]) == a.credit + b.credit
  {
    assert [a, b][..1] == [a];
    NetOfOne(a, w);
  }

  lemma {:induction false} NetOfThree(a: Line, b: Line, c: Line, w: Accounts)
    ensures NetOf([a, b, c], w) == Effect(a, w) + Effect(b, w) + Effect(c, w)
    ensures TotalDebit([a, b, c]) == a.debit + b.debit + c.debit
            && TotalCredit([a, b, c]) == a.credit + b.credit + c.credit
  {
    assert [a, b, c][..2] == [a, b];
    NetOfTwo(a, b, w);
  }

  lemma {:induction false} NetOfFour(a: Line, b: Line, c: Line, d: Line, w: Accounts)
    ensures NetOf([a, b, c, d], w) == Effect(a, w) + Effect(b, w) + Effect(c, w) + Effect(d, w)
    ensures TotalDebit([a, b, c, d]) == a.debit + b.debit + c.debit + d.debit
    ensures TotalCredit([a, b, c, d]) == a.credit + b.credit + c.credit + d.credit
  {
    assert [a, b, c, d][..3] == [a, b, c];
    NetOfThree(a, b, c, w);
  }

  // ---- The order of the lines does not matter ----

  lemma {:induction false} RemoveLine(lines: seq<Line>, k: nat, w: Accounts)
    requires k < |lines|
    ensures var rest := lines[..k] + lines[k + 1..];
            && NetOf(lines, w) == NetOf(rest, w) + Effect(lines[k], w)
            && TotalDebit(lines) == TotalDebit(rest) + lines[k].debit
            && TotalCredit(lines) == TotalCredit(rest) + lines[k].credit
  {
    var a, b := lines[..k], lines[k + 1..];
    assert lines == (a + [lines[k]]) + b;
    NetOfOne(lines[k], w);
    NetOfAppend(a, [lines[k]], w);
    NetOfAppend(a + [lines[k]], b, w);
    NetOfAppend(a, b, w);
    TotalsAppend(a, [lines[k]]);
    TotalsAppend(a + [lines[k]], b);
    TotalsAppend(a, b);
  }

  lemma {:induction false} ReorderedTotals(xs: seq<Line>, ys: seq<Line>, w: Accounts)
    requires multiset(xs) == multiset(ys)
    ensures NetOf(xs, w) == NetOf(ys, w)
    ensures TotalDebit(xs) == TotalDebit(ys) && TotalCredit(xs) == TotalCredit(ys)
    decreases |xs|
  {
    if xs == [] {
      assert |multiset(ys)| == 0;
    } else {
      var k := MatchLast(xs, ys);
      RemoveLine(ys, k, w);
      ReorderedTotals(xs[..|xs| - 1], ys[..k] + ys[k + 1..], w);
    }
  }

  /** Lines may be listed in any order: nets, and whether they can be posted, stay. */
  lemma {:induction false} OrderOfLinesIrrelevant(xs: seq<Line>, ys: seq<Line>, w: Accounts)
    requires multiset(xs) == multiset(ys)
    ensures NetOf(xs, w) == NetOf(ys, w)
    ensures Postable(xs) <==> Postable(ys)
    ensures forall l :: l in xs <==> l in ys
  {
    ReorderedTotals(xs, ys, w);
    assert |xs| == |multiset(xs)| == |multiset(ys)| == |ys|;
    assert forall l :: l in xs <==> l in multiset(xs);
    assert forall l :: l in ys <==> l in multiset(ys);
    assert forall i :: 0 <= i < |xs| ==> xs[i] in ys;
    assert forall i :: 0 <= i < |ys| ==> ys[i] in xs;
  }

  // ---- Reverse ----

  function Swapped(l: Line): Line {
    Line(l.account, l.credit, l.debit, l.vatCode)
  }

  /** The lines of a correcting voucher: Reverse fills a new slice. */
  method Reverse(lines: seq<Line>) returns (reversed: seq<Line>)
    ensures reversed == Reversed(lines)
  {
    var out := new Line[|lines|](i => Debit("", 0));
    for i := 0 to |lines|
      invariant forall k :: 0 <= k < i ==> out[k] == Swapped(lines[k])
    {
      out[i] := Line(lines[i].account, lines[i].credit, lines[i].debit, lines[i].vatCode);
    }
    reversed := out[..];
  }

  function Reversed(lines: seq<Line>): seq<Line> {
    seq(|lines|, i requires 0 <= i < |lines| => Swapped(lines[i]))
  }

  /** A correcting voucher exactly cancels the original on every selection of accounts, and is
      itself postable exactly when the original is. */
  lemma {:induction false} ReverseCancels(lines: seq<Line>, w: Accounts)
    ensures NetOf(Reversed(lines), w) == -NetOf(lines, w)
    ensures TotalDebit(Reversed(lines)) == TotalCredit(lines)
    ensures TotalCredit(Reversed(lines)) == TotalDebit(lines)
    ensures Postable(Reversed(lines)) <==> Postable(lines)
    ensures |Reversed(lines)| == |lines|
    ensures forall i :: 0 <= i < |lines| ==>
              Reversed(lines)[i] == Line(lines[i].account, lines[i].credit, lines[i].debit, lines[i].vatCode)
  {
    if lines != [] {
      var n := |lines| - 1;
      ReverseCancels(lines[..n], w);
      assert Reversed(lines)[..n] == Reversed(lines[..n]);
    }
    assert forall i :: 0 <= i < |lines| ==> Reversed(lines)[i] == Swapped(lines[i]);
    assert forall i :: 0 <= i < |lines| ==> (OneSided(Reversed(lines)[i]) <==> OneSided(lines[i]));
  }
}
