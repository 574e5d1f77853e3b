/** Undoing a year-end close: its reversal is posted in another series, which the
    reports that leave closes out do count. */
module UndoneClose {
  import opened Prelude
  import opened Ledger
  import opened Reports
  import opened Books
  import Moms
  import YearEnd
  import VatRuns

  const UNDO_SERIES := "R"

  /** UndoVerification: the reversal of voucher k, in a series of its own. */
  function Undo(b: Book, k: nat, date: int, text: string): Result<Book, Refusal>
    requires k < |b.vouchers|
  {
    Post(b, UNDO_SERIES, date, text, Reversed(b.vouchers[k].lines))
  }

  /** Any voucher, a close as well, can be undone on every day after the lock. What is
      posted is its lines with the sides swapped, in series R. */
  lemma {:induction false} UndoAcceptedIff(b: Book, k: nat, date: int, text: string)
    requires WellKept(b) && k < |b.vouchers|
    ensures Undo(b, k, date, text).Ok? <==> b.lock.None? || date > b.lock.value
    ensures Undo(b, k, date, text).Ok? ==>
              Undo(b, k, date, text).value
              == b.(vouchers := b.vouchers
                    + [Voucher("R", CountSeries(b.vouchers, "R") + 1, date, text, Reversed(b.vouchers[k].lines))])
  {
    var v := b.vouchers[k];
    assert v in b.vouchers && Postable(v.lines) && KnownAccounts(v.lines, b.accounts);
    ReverseCancels(v.lines, All);
    forall l | l in Reversed(v.lines) ensures l.account in b.accounts {
      var i :| 0 <= i < |v.lines| && l == Swapped(v.lines[i]);
      assert v.lines[i] in v.lines;
    }
    PostKeepsBooks(b, UNDO_SERIES, date, text, Reversed(v.lines));
  }

  /** Where closes are left out, undoing one counts the year that it closed once more:
      every result account gains what it had in the balances the close used. */
  lemma {:induction false} UndoneCloseCountsAgain(
    b0: Book, y: FiscalYear, b: Book, k: nat, date: int, text: string, p: Period, a: string)
    requires RowsFit(YearEnd.YearRows(b0, y)) && WellKept(b) && k < |b.vouchers|
    requires b.vouchers[k].lines == YearEnd.ClosingLines(YearEnd.YearRows(b0, y)) && Undo(b, k, date, text).Ok?
    requires VatRuns.LeavesClosesOut(p) && p.from <= date <= p.to && a != "" && '3' <= a[0] <= '8'
    ensures Net(Undo(b, k, date, text).value.vouchers, p, One(a))
            == Net(b.vouchers, p, One(a))
               + Net(b0.vouchers, BetweenExcluding(y.starts, y.ends, YearEnd.CLOSE_SERIES), One(a))
  {
    var rows := YearEnd.YearRows(b0, y);
    UndoNet(b, k, date, text, p, One(a));
    YearEnd.ClosingByAccount(rows, a);
    TrialBalanceNet(b0.vouchers, BetweenExcluding(y.starts, y.ends, YearEnd.CLOSE_SERIES), One(a));
  }

  lemma {:induction false} UndoNet(b: Book, k: nat, date: int, text: string, p: Period, w: Accounts)
    requires WellKept(b) && k < |b.vouchers| && Undo(b, k, date, text).Ok?
    requires VatRuns.LeavesClosesOut(p) && p.from <= date <= p.to
    ensures Net(Undo(b, k, date, text).value.vouchers, p, w) == Net(b.vouchers, p, w) - NetOf(b.vouchers[k].lines, w)
  {
    UndoAcceptedIff(b, k, date, text);
    var undo := Undo(b, k, date, text).value.vouchers[|b.vouchers|];
    NetSnoc(b.vouchers, undo, p, w);
    ReverseCancels(b.vouchers[k].lines, w);
  }

  /** So the year's sales, purchases and EU services are declared once more. */
  lemma {:induction false} UndoneCloseIsDeclaredAgain(
    b0: Book, y: FiscalYear, b: Book, k: nat, date: int, text: string, p: Period, box: Moms.Box)
    requires RowsFit(YearEnd.YearRows(b0, y)) && WellKept(b) && k < |b.vouchers|
    requires b.vouchers[k].lines == YearEnd.ClosingLines(YearEnd.YearRows(b0, y)) && Undo(b, k, date, text).Ok?
    requires VatRuns.LeavesClosesOut(p) && p.from <= date <= p.to && VatRuns.ReadsResults(box)
    ensures var year := BetweenExcluding(y.starts, y.ends, YearEnd.CLOSE_SERIES);
            Moms.Boxed(CoveredLines(Undo(b, k, date, text).value.vouchers, p), box)
            == Moms.Boxed(CoveredLines(b.vouchers, p), box) + Moms.Boxed(CoveredLines(b0.vouchers, year), box)
  {
    var year := BetweenExcluding(y.starts, y.ends, YearEnd.CLOSE_SERIES);
    var vs := Undo(b, k, date, text).value.vouchers;
    BoxIsNet(vs, p, box);
    BoxIsNet(b.vouchers, p, box);
    BoxIsNet(b0.vouchers, year, box);
    forall a: string | a != "" && '3' <= a[0] <= '8'
      ensures Net(vs, p, One(a)) == Net(b.vouchers, p, One(a)) + Net(b0.vouchers, year, One(a))
    {
      UndoneCloseCountsAgain(b0, y, b, k, date, text, p, a);
    }
    BoxesSum(a => Net(vs, p, One(a)), a => Net(b.vouchers, p, One(a)), a => Net(b0.vouchers, year, One(a)), box);
  }

  lemma {:induction false} BoxIsNet(vs: seq<Voucher>, p: Period, box: Moms.Box)
    ensures Moms.Boxed(CoveredLines(vs, p), box) == Moms.BoxOf(a => Net(vs, p, One(a)), box)
  {
    var lines := CoveredLines(vs, p);
    Moms.BoxedIs(lines, box);
    forall a: string ensures NetOf(lines, One(a)) == Net(vs, p, One(a)) {
      CoveredNet(vs, p, One(a));
    }
    SameReading(a => NetOf(lines, One(a)), a => Net(vs, p, One(a)), box);
  }

  lemma {:induction false} SameReading(r: string -> int, n: string -> int, box: Moms.Box)
    requires forall a :: r(a) == n(a)
    ensures Moms.BoxOf(r, box) == Moms.BoxOf(n, box)
  {
  }

  lemma {:induction false} BoxesSum(r: string -> int, m: string -> int, n: string -> int, box: Moms.Box)
    requires VatRuns.ReadsResults(box) && forall a: string :: a != "" && '3' <= a[0] <= '8' ==> r(a) == m(a) + n(a)
    ensures Moms.BoxOf(r, box) == Moms.BoxOf(m, box) + Moms.BoxOf(n, box)
  {
  }

  // ---- One year with one sale ----

  const CHART := map["1510" := "", "3001" := "", "2099" := ""]
  const YEAR := FiscalYear(2025_01_01, 2025_12_31, false)

  function Sold(): seq<Line> {
    [Debit("1510", 100_00), Credit("3001", 100_00)]
  }

  function Books2025(): Book {
    Book(CHART, [Voucher("A", 1, 2025_06_01, "", Sold())], None, map[0 := YEAR])
  }

  lemma {:induction false} SaleRows(p: Period)
    requires Covers(p, Books2025().vouchers[0])
    ensures CoveredLines(Books2025().vouchers, p) == Sold()
    ensures TrialBalance(Books2025().vouchers, p) == [Row("1510", 100_00), Row("3001", -100_00)]
  {
    var vs, ls := Books2025().vouchers, Sold();
    assert vs[..0] == [];
    assert CoveredLines(vs, p) == [] + ls == ls;
    TwoLines(ls[0], ls[1]);
  }

  lemma {:induction false} TwoLines(l: Line, m: Line)
    requires l.account != m.account && !Less(m.account, l.account)
    ensures Grouped([l, m]) == [Row(l.account, l.debit - l.credit), Row(m.account, m.debit - m.credit)]
  {
    var r := Row(l.account, l.debit - l.credit);
    assert [l, m][..1] == [l] && [l][..0] == [];
    assert Grouped([l]) == [r] && [r][1..] == [];
    assert AddTo([r], m.account, m.debit - m.credit) == [r] + AddTo([], m.account, m.debit - m.credit);
  }

  lemma {:induction false} BooksKept()
    ensures WellKept(Books2025())
  {
    var vs := Books2025().vouchers;
    NetOfTwo(Sold()[0], Sold()[1], All);
    assert vs[..0] == [];
    assert NumberedAt(vs, 0);
    forall v | v in vs ensures Postable(v.lines) && KnownAccounts(v.lines, CHART) {
      assert v == vs[0];
    }
  }

  lemma {:induction false} OneRow(x: Row)
    requires Classify(x.account) == Asset
    ensures YearEnd.Gains([x]) == 0 && YearEnd.Costs([x]) == 0
  {
    assert [x][..0] == [];
    assert YearEnd.Gains([x]) == YearEnd.Gains([x][..0]);
    assert YearEnd.Costs([x]) == YearEnd.Costs([x][..0]);
  }

  lemma {:induction false} TwoRows(x: Row, y: Row)
    requires Classify(x.account) == Asset && Classify(y.account) == Income && y.net < 0
    ensures ResultOf([x, y]) == YearEnd.Gains([x, y]) == -y.net && YearEnd.Costs([x, y]) == 0
  {
    assert [x, y][..1] == [x];
    OneRow(x);
    YearEnd.ResultIsGainsLessCosts([x, y]);
  }

  lemma {:induction false} YearCloses(text: string)
    ensures YearEnd.Close(Books2025(), 0, text).Ok?
    ensures RowsFit(YearEnd.YearRows(Books2025(), YEAR))
  {
    var rows := YearEnd.YearRows(Books2025(), YEAR);
    SaleRows(BetweenExcluding(YEAR.starts, YEAR.ends, YearEnd.CLOSE_SERIES));
    BooksKept();
    TwoRows(Row("1510", 100_00), Row("3001", -100_00));
    YearEnd.CloseAcceptedIff(Books2025(), 0, text);
  }

  lemma {:induction false} SaleBoxed(p: Period)
    requires Covers(p, Books2025().vouchers[0])
    ensures Moms.Boxed(CoveredLines(Books2025().vouchers, p), Moms.Box05) == Moms.Boxed(Sold(), Moms.Box05) == 100_00
  {
    SaleRows(p);
    assert Sold()[..1] == [Sold()[0]] && Sold()[..1][..0] == [];
    assert Moms.Boxed(Sold()[..1], Moms.Box05) == 0;
  }

  const BOTH_YEARS := BetweenExcluding(2025_01_01, 2026_12_31, YearEnd.CLOSE_SERIES)

  lemma {:induction false} CloseUndone(text: string)
    ensures YearEnd.Close(Books2025(), 0, text).Ok?
    ensures var b := YearEnd.Close(Books2025(), 0, text).value;
            && |b.vouchers| == 2 && WellKept(b)
            && b.vouchers[1].lines == YearEnd.ClosingLines(YearEnd.YearRows(Books2025(), YEAR))
            && CoveredLines(b.vouchers, BOTH_YEARS) == Sold()
            && Undo(b, 1, 2026_01_01, text).Ok?
  {
    YearCloses(text);
    BooksKept();
    var rows := YearEnd.YearRows(Books2025(), YEAR);
    var b := YearEnd.Close(Books2025(), 0, text).value;
    var v := YearEnd.ClosePosts(Books2025(), 0, YEAR, rows, text);
    SaleRows(BOTH_YEARS);
    YearEnd.CoveredSnoc(Books2025().vouchers, v, BOTH_YEARS);
    UndoAcceptedIff(b, 1, 2026_01_01, text);
  }

  /** The one sale of 2025 is 100 kronor. The year is closed, the close undone on the
      first day of 2026, and the declaration of both years then shows 200. */
  lemma {:induction false} SoldOnceDeclaredTwice(text: string)
    ensures Moms.Boxed(CoveredLines(Books2025().vouchers, BOTH_YEARS), Moms.Box05) == 100_00
    ensures var closed := YearEnd.Close(Books2025(), 0, text);
            && closed.Ok? && |closed.value.vouchers| == 2
            && var undone := Undo(closed.value, 1, 2026_01_01, text);
               && undone.Ok?
               && forall bal :: Moms.Reflects(bal, CoveredLines(undone.value.vouchers, BOTH_YEARS)) ==>
                    Moms.Report(bal, Moms.Box05) == 200_00
  {
    YearCloses(text);
    CloseUndone(text);
    SaleBoxed(BOTH_YEARS);
    SaleBoxed(BetweenExcluding(YEAR.starts, YEAR.ends, YearEnd.CLOSE_SERIES));
    var b := YearEnd.Close(Books2025(), 0, text).value;
    UndoneCloseIsDeclaredAgain(Books2025(), YEAR, b, 1, 2026_01_01, text, BOTH_YEARS, Moms.Box05);
    var lines := CoveredLines(Undo(b, 1, 2026_01_01, text).value.vouchers, BOTH_YEARS);
    forall bal | Moms.Reflects(bal, lines) ensures Moms.Report(bal, Moms.Box05) == 200_00 {
      Moms.ReportReads(bal, lines, Moms.Box05);
    }
  }
}
