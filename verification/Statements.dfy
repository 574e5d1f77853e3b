/** The income statement and the balance sheet, built row by row from trial balances
    in int64. */
module Statements {
  import opened Prelude
  import opened Ledger
  import opened Reports

  datatype StatementRow = StatementRow(account: string, name: string, cls: Class, amount: int)

  datatype Statement = Statement(
    income: seq<StatementRow>, expenses: seq<StatementRow>, financial: seq<StatementRow>,
    incomeTotal: int, expenseTotal: int, financialTotal: int, result: int,
    assets: seq<StatementRow>, equity: seq<StatementRow>, liabilities: seq<StatementRow>,
    assetTotal: int, equityTotal: int, liabilityTotal: int)

  // ---- Sections ----

  predicate DebitSide(c: Class) {
    c == Asset || c == Expense
  }

  /** A row, positive on its natural side. */
  function Shown(r: Row, name: string -> string): StatementRow {
    var c := Classify(r.account);
    StatementRow(r.account, name(r.account), c, if DebitSide(c) then r.net else Minus64(0, r.net))
  }

  function Listed(rows: seq<Row>, w: Accounts, name: string -> string): seq<StatementRow> {
    if rows == [] then []
    else
      var r := rows[|rows| - 1];
      Listed(rows[..|rows| - 1], w, name) + if Selects(w, r.account) then [Shown(r, name)] else []
  }

  /** The running int64 total of a section. */
  function Summed(rows: seq<StatementRow>): int {
    if rows == [] then 0 else Plus64(Summed(rows[..|rows| - 1]), rows[|rows| - 1].amount)
  }

  lemma {:induction false} SummedSnoc(rows: seq<StatementRow>, r: StatementRow)
    ensures Summed(rows + [r]) == Plus64(Summed(rows), r.amount)
  {
    assert (rows + [r])[..|rows|] == rows;
  }

  /** The selections whose accounts all stand on the same side. */
  predicate OneSide(w: Accounts, debit: bool) {
    match w
    case OfClass(c) => DebitSide(c) == debit
    case Equity => !debit
    case Liabilities => !debit
    case _ => false
  }

  function SignedNet(rows: seq<Row>, w: Accounts, debit: bool): int {
    if debit then RowsNet(rows, w) else -RowsNet(rows, w)
  }

  /** A section's total is the net of its rows, with the sign of its side. */
  lemma {:induction false} SectionTotal(rows: seq<Row>, w: Accounts, debit: bool, name: string -> string)
    requires OneSide(w, debit)
    ensures Summed(Listed(rows, w, name)) == Wrap(SignedNet(rows, w, debit))
  {
    if rows != [] {
      var n := |rows| - 1;
      var r, before := rows[n], Listed(rows[..n], w, name);
      SectionTotal(rows[..n], w, debit, name);
      if Selects(w, r.account) {
        SummedSnoc(before, Shown(r, name));
        SideShown(r, w, debit, name);
        OneRow(SignedNet(rows[..n], w, debit), r.net, debit, Shown(r, name).amount, SignedNet(rows, w, debit));
        assert Listed(rows, w, name) == before + [Shown(r, name)];
      } else {
        assert Listed(rows, w, name) == before;
      }
    }
  }

  lemma {:induction false} SideShown(r: Row, w: Accounts, debit: bool, name: string -> string)
    requires OneSide(w, debit) && Selects(w, r.account)
    ensures Shown(r, name).amount == if debit then r.net else Minus64(0, r.net)
  {
  }

  lemma {:induction false} OneRow(sum: int, net: int, debit: bool, shown: int, after: int)
    requires shown == if debit then net else Minus64(0, net)
    requires after == sum + if debit then net else -net
    ensures Plus64(Wrap(sum), shown) == Wrap(after)
  {
    WrapAdd(sum, shown);
    WrapAdd(-net, sum);
  }

  // ---- The sections by account number ----

  /** The rows of the accounts that start with one of these digits. */
  function Starting(rows: seq<Row>, from: char, to: char): seq<Row> {
    if rows == [] then []
    else
      var r := rows[|rows| - 1];
      Starting(rows[..|rows| - 1], from, to) + if r.account != "" && from <= r.account[0] <= to then [r] else []
  }

  /** The rows of class 2 that are equity, 20xx, or that are not. */
  function ClassTwo(rows: seq<Row>, equity: bool): seq<Row> {
    if rows == [] then []
    else
      var r := rows[|rows| - 1];
      ClassTwo(rows[..|rows| - 1], equity)
      + if r.account != "" && r.account[0] == '2' && (|r.account| >= 2 && r.account[1] == '0') == equity
        then [r] else []
  }

  /** Rows with their net, or with its negation in int64. */
  function AsDebits(rows: seq<Row>, name: string -> string): seq<StatementRow> {
    if rows == [] then []
    else
      var r := rows[|rows| - 1];
      AsDebits(rows[..|rows| - 1], name) + [StatementRow(r.account, name(r.account), Classify(r.account), r.net)]
  }

  function AsCredits(rows: seq<Row>, name: string -> string): seq<StatementRow> {
    if rows == [] then []
    else
      var r := rows[|rows| - 1];
      AsCredits(rows[..|rows| - 1], name)
      + [StatementRow(r.account, name(r.account), Classify(r.account), Minus64(0, r.net))]
  }

  lemma {:induction false} SectionSnoc(rows: seq<Row>, r: Row, name: string -> string)
    ensures AsDebits(rows + [r], name)
            == AsDebits(rows, name) + [StatementRow(r.account, name(r.account), Classify(r.account), r.net)]
    ensures AsCredits(rows + [r], name)
            == AsCredits(rows, name)
               + [StatementRow(r.account, name(r.account), Classify(r.account), Minus64(0, r.net))]
  {
    assert (rows + [r])[..|rows|] == rows;
  }

  lemma {:induction false} DebitSection(rows: seq<Row>, w: Accounts, from: char, to: char, name: string -> string)
    requires OneSide(w, true)
    requires forall a :: Selects(w, a) <==> a != "" && from <= a[0] <= to
    ensures Listed(rows, w, name) == AsDebits(Starting(rows, from, to), name)
  {
    if rows != [] {
      var n := |rows| - 1;
      var r, before := rows[n], Starting(rows[..n], from, to);
      DebitSection(rows[..n], w, from, to, name);
      if Selects(w, r.account) {
        assert Starting(rows, from, to) == before + [r];
        SideShown(r, w, true, name);
        SectionSnoc(before, r, name);
      } else {
        assert Starting(rows, from, to) == before && Listed(rows, w, name) == Listed(rows[..n], w, name);
      }
    }
  }

  lemma {:induction false} CreditSection(rows: seq<Row>, w: Accounts, from: char, to: char, name: string -> string)
    requires OneSide(w, false)
    requires forall a :: Selects(w, a) <==> a != "" && from <= a[0] <= to
    ensures Listed(rows, w, name) == AsCredits(Starting(rows, from, to), name)
  {
    if rows != [] {
      var n := |rows| - 1;
      var r, before := rows[n], Starting(rows[..n], from, to);
      CreditSection(rows[..n], w, from, to, name);
      if Selects(w, r.account) {
        assert Starting(rows, from, to) == before + [r];
        SideShown(r, w, false, name);
        SectionSnoc(before, r, name);
      } else {
        assert Starting(rows, from, to) == before && Listed(rows, w, name) == Listed(rows[..n], w, name);
      }
    }
  }

  lemma {:induction false} TwoSection(rows: seq<Row>, equity: bool, name: string -> string)
    ensures Listed(rows, if equity then Equity else Liabilities, name) == AsCredits(ClassTwo(rows, equity), name)
  {
    if rows != [] {
      var n := |rows| - 1;
      var r, before, w := rows[n], ClassTwo(rows[..n], equity), if equity then Equity else Liabilities;
      TwoSection(rows[..n], equity, name);
      SelectionsAre(r.account, "");
      if Selects(w, r.account) {
        assert ClassTwo(rows, equity) == before + [r];
        SideShown(r, w, false, name);
        SectionSnoc(before, r, name);
      } else {
        assert ClassTwo(rows, equity) == before && Listed(rows, w, name) == Listed(rows[..n], w, name);
      }
    }
  }

  /** Income is class 3, expenses are classes 4 to 7, financial items are class 8,
      assets are class 1 and class 2 is equity (20) or liabilities. Assets and expenses
      show their net, all others its negation. */
  lemma {:induction false} SectionsByNumber(rows: seq<Row>, name: string -> string)
    ensures Listed(rows, OfClass(Income), name) == AsCredits(Starting(rows, '3', '3'), name)
    ensures Listed(rows, OfClass(Expense), name) == AsDebits(Starting(rows, '4', '7'), name)
    ensures Listed(rows, OfClass(Financial), name) == AsCredits(Starting(rows, '8', '8'), name)
    ensures Listed(rows, OfClass(Asset), name) == AsDebits(Starting(rows, '1', '1'), name)
    ensures Listed(rows, Equity, name) == AsCredits(ClassTwo(rows, true), name)
    ensures Listed(rows, Liabilities, name) == AsCredits(ClassTwo(rows, false), name)
  {
    forall a {
      ClassesAre(a);
    }
    CreditSection(rows, OfClass(Income), '3', '3', name);
    DebitSection(rows, OfClass(Expense), '4', '7', name);
    CreditSection(rows, OfClass(Financial), '8', '8', name);
    DebitSection(rows, OfClass(Asset), '1', '1', name);
    TwoSection(rows, true, name);
    TwoSection(rows, false, name);
  }

  // ---- The statements ----

  const BALANCING := "Årets resultat (beräknat)"

  function SyntheticRow(amount: int): StatementRow {
    StatementRow("", BALANCING, EquityOrLiability, amount)
  }

  method IncomeSections(pl: seq<Row>, name: string -> string)
    returns (inc: seq<StatementRow>, exp: seq<StatementRow>, fin: seq<StatementRow>, incT: int, expT: int, finT: int)
    ensures inc == Listed(pl, OfClass(Income), name) && incT == Summed(inc)
    ensures exp == Listed(pl, OfClass(Expense), name) && expT == Summed(exp)
    ensures fin == Listed(pl, OfClass(Financial), name) && finT == Summed(fin)
  {
    inc, exp, fin := [], [], [];
    incT, expT, finT := 0, 0, 0;
    for i := 0 to |pl|
      invariant inc == Listed(pl[..i], OfClass(Income), name) && incT == Summed(inc)
      invariant exp == Listed(pl[..i], OfClass(Expense), name) && expT == Summed(exp)
      invariant fin == Listed(pl[..i], OfClass(Financial), name) && finT == Summed(fin)
    {
      assert pl[..i + 1][..i] == pl[..i];
      var r := pl[i];
      var cls := Classify(r.account);
      var row := StatementRow(r.account, name(r.account), cls,
                              if cls == Expense || cls == Asset then r.net else Minus64(0, r.net));
      if cls == Income {
        SummedSnoc(inc, row);
        inc, incT := inc + [row], Plus64(incT, row.amount);
      } else if cls == Expense {
        SummedSnoc(exp, row);
        exp, expT := exp + [row], Plus64(expT, row.amount);
      } else if cls == Financial {
        SummedSnoc(fin, row);
        fin, finT := fin + [row], Plus64(finT, row.amount);
      }
    }
    assert pl[..|pl|] == pl;
  }

  method BalanceSections(bs: seq<Row>, name: string -> string)
    returns (ass: seq<StatementRow>, equ: seq<StatementRow>, lia: seq<StatementRow>, assT: int, equT: int, liaT: int)
    ensures ass == Listed(bs, OfClass(Asset), name) && assT == Summed(ass)
    ensures equ == Listed(bs, Equity, name) && equT == Summed(equ)
    ensures lia == Listed(bs, Liabilities, name) && liaT == Summed(lia)
  {
    ass, equ, lia := [], [], [];
    assT, equT, liaT := 0, 0, 0;
    for i := 0 to |bs|
      invariant ass == Listed(bs[..i], OfClass(Asset), name) && assT == Summed(ass)
      invariant equ == Listed(bs[..i], Equity, name) && equT == Summed(equ)
      invariant lia == Listed(bs[..i], Liabilities, name) && liaT == Summed(lia)
    {
      assert bs[..i + 1][..i] == bs[..i];
      var r := bs[i];
      var cls := Classify(r.account);
      var row := StatementRow(r.account, name(r.account), cls,
                              if cls == Expense || cls == Asset then r.net else Minus64(0, r.net));
      if cls == Asset {
        SummedSnoc(ass, row);
        ass, assT := ass + [row], Plus64(assT, row.amount);
      } else if cls == EquityOrLiability {
        if "20" <= r.account {
          SummedSnoc(equ, row);
          equ, equT := equ + [row], Plus64(equT, row.amount);
        } else {
          SummedSnoc(lia, row);
          lia, liaT := lia + [row], Plus64(liaT, row.amount);
        }
      }
    }
    assert bs[..|bs|] == bs;
  }

  /** Income statement from pl, balance sheet from bs, section by section. Totals are
      the nets of their sections in int64, and the sheet always balances, whatever the
      rows are: the figure that makes it balance is shown as equity unless it is zero. */
  method BuildStatementsPeriod(pl: seq<Row>, bs: seq<Row>, name: string -> string) returns (s: Statement)
    ensures s.income == AsCredits(Starting(pl, '3', '3'), name) && s.incomeTotal == Wrap(-RowsNet(pl, OfClass(Income)))
    ensures s.expenses == AsDebits(Starting(pl, '4', '7'), name)
    ensures s.expenseTotal == Wrap(RowsNet(pl, OfClass(Expense)))
    ensures s.financial == AsCredits(Starting(pl, '8', '8'), name)
            && s.financialTotal == Wrap(-RowsNet(pl, OfClass(Financial)))
    ensures s.result == Wrap(ResultOf(pl))
    ensures s.assets == AsDebits(Starting(bs, '1', '1'), name) && s.assetTotal == Wrap(RowsNet(bs, OfClass(Asset)))
    ensures s.liabilities == AsCredits(ClassTwo(bs, false), name) && s.liabilityTotal == Wrap(-RowsNet(bs, Liabilities))
    ensures s.equity == AsCredits(ClassTwo(bs, true), name)
                        + if Wrap(Synthetic(bs)) == 0 then []
                          else [StatementRow("", "Årets resultat (beräknat)", EquityOrLiability, Wrap(Synthetic(bs)))]
    ensures s.assetTotal == Plus64(s.equityTotal, s.liabilityTotal)
  {
    var inc, exp, fin, incT, expT, finT := IncomeSections(pl, name);
    var ass, equ, lia, assT, equT, liaT := BalanceSections(bs, name);
    IncomeTotals(pl, name);
    SheetTotals(bs, name);
    SectionsByNumber(pl, name);
    SectionsByNumber(bs, name);
    SheetBalance(bs, assT, equT, liaT);
    ResultWraps(pl, incT, expT, finT);
    var result := Plus64(Minus64(incT, expT), finT);
    var bal := Minus64(Minus64(assT, equT), liaT);
    SheetBalances(assT, equT, liaT);
    if bal != 0 {
      equ, equT := equ + [SyntheticRow(bal)], Plus64(equT, bal);
    } else {
      assert equ + [] == equ;
    }
    s := Statement(inc, exp, fin, incT, expT, finT, result, ass, equ, lia, assT, equT, liaT);
  }

  lemma {:induction false} IncomeTotals(pl: seq<Row>, name: string -> string)
    ensures Summed(Listed(pl, OfClass(Income), name)) == Wrap(-RowsNet(pl, OfClass(Income)))
    ensures Summed(Listed(pl, OfClass(Expense), name)) == Wrap(RowsNet(pl, OfClass(Expense)))
    ensures Summed(Listed(pl, OfClass(Financial), name)) == Wrap(-RowsNet(pl, OfClass(Financial)))
  {
    SectionTotal(pl, OfClass(Income), false, name);
    SectionTotal(pl, OfClass(Expense), true, name);
    SectionTotal(pl, OfClass(Financial), false, name);
  }

  /** The int64 result of the three wrapped totals is the wrapped result. */
  lemma {:induction false} ResultWraps(pl: seq<Row>, inc: int, exp: int, fin: int)
    requires inc == Wrap(-RowsNet(pl, OfClass(Income))) && exp == Wrap(RowsNet(pl, OfClass(Expense)))
    requires fin == Wrap(-RowsNet(pl, OfClass(Financial)))
    ensures Plus64(Minus64(inc, exp), fin) == Wrap(ResultOf(pl))
  {
    ResultSections(pl);
    MinusWraps(-RowsNet(pl, OfClass(Income)), RowsNet(pl, OfClass(Expense)), inc, exp);
    PlusWraps(-RowsNet(pl, OfClass(Income)) - RowsNet(pl, OfClass(Expense)), -RowsNet(pl, OfClass(Financial)),
              Minus64(inc, exp), fin);
  }

  lemma {:induction false} ResultSections(rows: seq<Row>)
    ensures ResultOf(rows)
            == -RowsNet(rows, OfClass(Income)) - RowsNet(rows, OfClass(Expense)) - RowsNet(rows, OfClass(Financial))
  {
    if rows != [] {
      ResultSections(rows[..|rows| - 1]);
    }
  }

  lemma {:induction false} SheetTotals(bs: seq<Row>, name: string -> string)
    ensures Summed(Listed(bs, OfClass(Asset), name)) == Wrap(RowsNet(bs, OfClass(Asset)))
    ensures Summed(Listed(bs, Equity, name)) == Wrap(-RowsNet(bs, Equity))
    ensures Summed(Listed(bs, Liabilities, name)) == Wrap(-RowsNet(bs, Liabilities))
  {
    SectionTotal(bs, OfClass(Asset), true, name);
    SectionTotal(bs, Equity, false, name);
    SectionTotal(bs, Liabilities, false, name);
  }

  lemma {:induction false} SheetBalance(bs: seq<Row>, ass: int, equ: int, lia: int)
    requires ass == Wrap(RowsNet(bs, OfClass(Asset))) && equ == Wrap(-RowsNet(bs, Equity))
    requires lia == Wrap(-RowsNet(bs, Liabilities))
    ensures Minus64(Minus64(ass, equ), lia) == Wrap(Synthetic(bs))
  {
    MinusWraps(RowsNet(bs, OfClass(Asset)), -RowsNet(bs, Equity), ass, equ);
    MinusWraps(RowsNet(bs, OfClass(Asset)) + RowsNet(bs, Equity), -RowsNet(bs, Liabilities), Minus64(ass, equ), lia);
  }

  /** Adding the balancing figure to equity makes the sheet balance in int64. */
  lemma {:induction false} SheetBalances(assets: int, equity: int, liabilities: int)
    requires Fits(assets) && Fits(equity) && Fits(liabilities)
    ensures var bal := Minus64(Minus64(assets, equity), liabilities);
            && assets == Plus64(Plus64(equity, bal), liabilities)
            && (bal == 0 ==> assets == Plus64(equity, liabilities))
  {
    var bal := Minus64(Minus64(assets, equity), liabilities);
    PlusAssociative(equity, bal, liabilities);
    MinusPlus(Minus64(assets, equity), liabilities);
    MinusPlus(assets, equity);
    assert bal == 0 ==> Plus64(equity, bal) == equity;
  }

  lemma {:induction false} MinusPlus(x: int, y: int)
    requires Fits(x)
    ensures Plus64(Minus64(x, y), y) == x && Plus64(y, Minus64(x, y)) == x
  {
    WrapAdd(x - y, y);
  }

  lemma {:induction false} PlusAssociative(x: int, y: int, z: int)
    ensures Plus64(Plus64(x, y), z) == Plus64(x, Plus64(y, z))
  {
    WrapAdd(x + y, z);
    WrapAdd(y + z, x);
  }
}
