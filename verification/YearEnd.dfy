/** CloseFiscalYear: the year's result accounts are emptied into 2099, the period
    is locked through the year's end and the year is marked closed. */
module YearEnd {
  import opened Prelude
  import opened Ledger
  import opened Reports
  import opened Books

  const CLOSE_SERIES := "O"
  const RESULT_ACCOUNT := "2099"

  datatype CloseError = NoSuchYear | YearClosed | OutOfRange | NothingToClose | Refused(why: Refusal)

  // ---- The closing entry ----

  /** The int64 expression -x. */
  function Negated(x: int): int {
    Wrap(-x)
  }

  predicate Closes(r: Row) {
    IsResult(Classify(r.account)) && r.net != 0
  }

  function EmptyingLine(r: Row): Line {
    if r.net > 0 then Credit(r.account, r.net) else Debit(r.account, Negated(r.net))
  }

  /** One line for every result account with a balance, putting it at zero. */
  function EmptyingLines(rows: seq<Row>): seq<Line> {
    if rows == [] then []
    else
      var r := rows[|rows| - 1];
      EmptyingLines(rows[..|rows| - 1]) + if Closes(r) then [EmptyingLine(r)] else []
  }

  /** ResultOf as it is computed, in int64. */
  function WrappedResult(rows: seq<Row>): int {
    Negated(Wrap(RowsNet(rows, Results)))
  }

  function ResultLine(result: int): Line {
    if result > 0 then Credit(RESULT_ACCOUNT, result) else Debit(RESULT_ACCOUNT, Negated(result))
  }

  function ClosingLines(rows: seq<Row>): seq<Line> {
    EmptyingLines(rows) + [ResultLine(WrappedResult(rows))]
  }

  /** The year's real result: close vouchers are left out. */
  function YearRows(b: Book, y: FiscalYear): seq<Row> {
    TrialBalance(b.vouchers, BetweenExcluding(y.starts, y.ends, CLOSE_SERIES))
  }

  /** The transaction of a close, given the year and the balances read before it. The
      year row is only updated if it is still open. */
  function CloseWith(b: Book, fy: nat, y: FiscalYear, rows: seq<Row>, text: string): Result<Book, CloseError> {
    if EmptyingLines(rows) == [] then Err(NothingToClose)
    else match Post(b, CLOSE_SERIES, y.ends, text, ClosingLines(rows))
      case Err(why) => Err(Refused(why))
      case Ok(posted) =>
        if fy !in b.years || b.years[fy].closed then Err(YearClosed)
        else Ok(posted.(years := b.years[fy := y.(closed := true)], lock := Some(y.ends)))
  }

  /** A close whose balances are read and used at once. */
  function Close(b: Book, fy: nat, text: string): Result<Book, CloseError> {
    if fy !in b.years then Err(NoSuchYear)
    else if b.years[fy].closed then Err(YearClosed)
    else if !RowsFit(YearRows(b, b.years[fy])) then Err(OutOfRange)
    else CloseWith(b, fy, b.years[fy], YearRows(b, b.years[fy]), text)
  }

  /** The loop that builds the entry from the year's trial balance. */
  method BuildClosing(rows: seq<Row>) returns (lines: seq<Line>)
    requires RowsFit(rows)
    ensures lines == if EmptyingLines(rows) == [] then [] else ClosingLines(rows)
    ensures forall l :: l in lines ==> Fits(l.debit) && Fits(l.credit)
  {
    lines := [];
    var net := 0;
    for i := 0 to |rows|
      invariant lines == EmptyingLines(rows[..i])
      invariant net == Wrap(RowsNet(rows[..i], Results))
    {
      var row := rows[i];
      ClosingStep(rows, i);
      if IsResult(Classify(row.account)) {
        net := Plus64(net, row.net);
      }
      if !IsResult(Classify(row.account)) || row.net == 0 {
        continue;
      }
      if row.net > 0 {
        lines := lines + [Credit(row.account, row.net)];
      } else {
        lines := lines + [Debit(row.account, Wrap(-row.net))];
      }
    }
    assert rows[..|rows|] == rows;
    EmptyingFits(rows);
    if |lines| == 0 {
      return;
    }
    var result := Wrap(-net);
    if result > 0 {
      lines := lines + [Credit(RESULT_ACCOUNT, result)];
    } else {
      lines := lines + [Debit(RESULT_ACCOUNT, Wrap(-result))];
    }
  }

  lemma {:induction false} ClosingStep(rows: seq<Row>, i: nat)
    requires i < |rows|
    ensures EmptyingLines(rows[..i + 1])
         == EmptyingLines(rows[..i]) + if Closes(rows[i]) then [EmptyingLine(rows[i])] else []
    ensures Wrap(RowsNet(rows[..i + 1], Results))
         == if IsResult(Classify(rows[i].account)) then Plus64(Wrap(RowsNet(rows[..i], Results)), rows[i].net)
            else Wrap(RowsNet(rows[..i], Results))
  {
    assert rows[..i + 1][..i] == rows[..i];
    WrapAdd(RowsNet(rows[..i], Results), rows[i].net);
  }

  lemma {:induction false} EmptyingFits(rows: seq<Row>)
    requires RowsFit(rows)
    ensures forall l :: l in EmptyingLines(rows) ==> Fits(l.debit) && Fits(l.credit)
  {
    if rows != [] {
      EmptyingFits(rows[..|rows| - 1]);
    }
  }

  /** The part of the close that is one transaction; y and rows may be stale. */
  method FinishClose(c: Company, fy: nat, y: FiscalYear, rows: seq<Row>, text: string)
    returns (r: Result<int, CloseError>)
    requires RowsFit(rows)
    modifies c
    ensures match CloseWith(old(c.Current()), fy, y, rows, text)
            case Ok(b) => c.Current() == b && r == Ok(b.vouchers[|b.vouchers| - 1].number)
            case Err(e) => c.Current() == old(c.Current()) && r == Err(e)
  {
    var lines := BuildClosing(rows);
    if |lines| == 0 {
      return Err(NothingToClose);
    }
    var before := c.vouchers;
    var posted := c.PostVerification(CLOSE_SERIES, y.ends, text, lines);
    if posted.Err? {
      return Err(Refused(posted.error));
    }
    if fy !in c.years || c.years[fy].closed {
      c.vouchers := before;
      return Err(YearClosed);
    }
    c.years := c.years[fy := y.(closed := true)];
    c.LockPeriod(y.ends);
    return Ok(posted.value);
  }

  method CloseFiscalYear(c: Company, fy: nat, text: string) returns (r: Result<int, CloseError>)
    modifies c
    ensures match Close(old(c.Current()), fy, text)
            case Ok(b) => c.Current() == b && r == Ok(b.vouchers[|b.vouchers| - 1].number)
            case Err(e) => c.Current() == old(c.Current()) && r == Err(e)
  {
    if fy !in c.years {
      return Err(NoSuchYear);
    }
    var y := c.years[fy];
    if y.closed {
      return Err(YearClosed);
    }
    var rows := Query(c.vouchers, BetweenExcluding(y.starts, y.ends, CLOSE_SERIES));
    if rows.None? {
      return Err(OutOfRange);
    }
    r := FinishClose(c, fy, y, rows.value, text);
  }

  // ---- The closing entry is exact whenever it is accepted ----

  /** Rows of result accounts among the selected accounts. */
  function ResultRowsNet(rows: seq<Row>, w: Accounts): int {
    if rows == [] then 0
    else ResultRowsNet(rows[..|rows| - 1], w) + ResultRowEffect(rows[|rows| - 1], w)
  }

  function ResultRowEffect(r: Row, w: Accounts): int {
    if IsResult(Classify(r.account)) then RowEffect(r, w) else 0
  }

  /** A MinInt64 balance negates to itself, so its line would be negative. Any other
      balance is emptied exactly. */
  lemma {:induction false} EmptyingOne(r: Row, w: Accounts)
    requires Fits(r.net) && Closes(r) && OneSided(EmptyingLine(r))
    ensures Effect(EmptyingLine(r), w) == -ResultRowEffect(r, w)
  {
  }

  lemma {:induction false} EmptyingNet(rows: seq<Row>, w: Accounts)
    requires RowsFit(rows) && forall i :: 0 <= i < |EmptyingLines(rows)| ==> OneSided(EmptyingLines(rows)[i])
    ensures NetOf(EmptyingLines(rows), w) == -ResultRowsNet(rows, w)
  {
    if rows != [] {
      var n := |rows| - 1;
      var xs, r := EmptyingLines(rows[..n]), rows[n];
      forall i | 0 <= i < |xs| ensures OneSided(xs[i]) {
        assert EmptyingLines(rows)[i] == xs[i];
      }
      EmptyingNet(rows[..n], w);
      if Closes(r) {
        assert OneSided(EmptyingLines(rows)[|xs|]);
        EmptyingOne(r, w);
      } else {
        assert EmptyingLines(rows) == xs;
      }
    }
  }

  lemma {:induction false} ResultRowsTotal(rows: seq<Row>)
    ensures ResultRowsNet(rows, All) == RowsNet(rows, Results)
  {
    if rows != [] {
      ResultRowsTotal(rows[..|rows| - 1]);
    }
  }

  lemma {:induction false} ResultRowsOfOne(rows: seq<Row>, a: string)
    ensures ResultRowsNet(rows, One(a)) == if IsResult(Classify(a)) then RowsNet(rows, One(a)) else 0
  {
    if rows != [] {
      ResultRowsOfOne(rows[..|rows| - 1], a);
    }
  }

  ghost predicate OffResults(w: Accounts) {
    forall a: string :: Selects(w, a) ==> !IsResult(Classify(a))
  }

  lemma {:induction false} ResultRowsElsewhere(rows: seq<Row>, w: Accounts)
    requires OffResults(w)
    ensures ResultRowsNet(rows, w) == 0
  {
    if rows != [] {
      ResultRowsElsewhere(rows[..|rows| - 1], w);
    }
  }

  /** If the closing entry is postable then no step of its arithmetic wrapped: it
      empties every result account and books the true, non-zero result to 2099. */
  lemma {:induction false} ClosingIsExact(rows: seq<Row>, w: Accounts)
    requires RowsFit(rows) && Postable(ClosingLines(rows))
    ensures NetOf(ClosingLines(rows), w)
            == -ResultRowsNet(rows, w) - (if Selects(w, RESULT_ACCOUNT) then ResultOf(rows) else 0)
    ensures ResultOf(rows) != 0
  {
    var xs, last := EmptyingLines(rows), ResultLine(WrappedResult(rows));
    forall i | 0 <= i < |xs| ensures OneSided(xs[i]) {
      assert ClosingLines(rows)[i] == xs[i];
    }
    assert OneSided(ClosingLines(rows)[|xs|]);
    EmptyingNet(rows, w);
    EmptyingNet(rows, All);
    ResultRowsTotal(rows);
    NetOfAll(xs);
    TotalsNonNegative(xs);
  }

  /** By account: an accepted closing entry takes every result account, classes 3 to 8,
      down to nothing, puts their sum on 2099, and moves no other account. */
  lemma {:induction false} ClosingByAccount(rows: seq<Row>, a: string)
    requires RowsFit(rows) && Postable(ClosingLines(rows))
    ensures NetOf(ClosingLines(rows), One(a))
         == if a != "" && '3' <= a[0] <= '8' then -RowsNet(rows, One(a))
            else if a == "2099" then RowsNet(rows, Results)
            else 0
  {
    ClosingIsExact(rows, One(a));
    ResultRowsOfOne(rows, a);
    ClassesAre(a);
  }

  // ---- When a close is accepted ----

  /** The year's income: credit balances of result accounts. */
  function Gains(rows: seq<Row>): nat {
    if rows == [] then 0
    else
      var r := rows[|rows| - 1];
      Gains(rows[..|rows| - 1]) + if IsResult(Classify(r.account)) && r.net < 0 then -r.net else 0
  }

  /** The year's costs: their debit balances. */
  function Costs(rows: seq<Row>): nat {
    if rows == [] then 0
    else
      var r := rows[|rows| - 1];
      Costs(rows[..|rows| - 1]) + if IsResult(Classify(r.account)) && r.net > 0 then r.net else 0
  }

  lemma {:induction false} ResultIsGainsLessCosts(rows: seq<Row>)
    ensures ResultOf(rows) == Gains(rows) - Costs(rows)
    ensures EmptyingLines(rows) == [] <==> Gains(rows) == 0 && Costs(rows) == 0
  {
    if rows != [] {
      ResultIsGainsLessCosts(rows[..|rows| - 1]);
    }
  }

  ghost predicate NoneMinimal(rows: seq<Row>) {
    forall i :: 0 <= i < |rows| && Closes(rows[i]) ==> rows[i].net != MIN_INT64
  }

  lemma {:induction false} EmptyingTotals(rows: seq<Row>)
    requires RowsFit(rows) && NoneMinimal(rows)
    ensures TotalDebit(EmptyingLines(rows)) == Gains(rows) && TotalCredit(EmptyingLines(rows)) == Costs(rows)
    ensures forall i :: 0 <= i < |EmptyingLines(rows)| ==> OneSided(EmptyingLines(rows)[i])
  {
    if rows != [] {
      var n := |rows| - 1;
      EmptyingTotals(rows[..n]);
      assert !Closes(rows[n]) ==> EmptyingLines(rows) == EmptyingLines(rows[..n]);
    }
  }

  lemma {:induction false} MinimalShows(rows: seq<Row>)
    ensures !NoneMinimal(rows) ==> Gains(rows) > MAX_INT64
    ensures RowsFit(rows) && !NoneMinimal(rows) ==>
              exists i :: 0 <= i < |EmptyingLines(rows)| && !OneSided(EmptyingLines(rows)[i])
  {
    if rows != [] {
      var n := |rows| - 1;
      MinimalShows(rows[..n]);
      var xs, all := EmptyingLines(rows[..n]), EmptyingLines(rows);
      assert forall i :: 0 <= i < |xs| ==> all[i] == xs[i];
      if !NoneMinimal(rows) && NoneMinimal(rows[..n]) {
        MinimalLast(rows);
        assert !OneSided(all[|xs|]);
      }
    }
  }

  lemma {:induction false} MinimalLast(rows: seq<Row>)
    requires rows != [] && !NoneMinimal(rows) && NoneMinimal(rows[..|rows| - 1])
    ensures Closes(rows[|rows| - 1]) && rows[|rows| - 1].net == MIN_INT64
  {
    var n := |rows| - 1;
    assert forall i :: 0 <= i < n ==> rows[..n][i] == rows[i];
  }

  /** The closing entry is postable exactly when the year has a result and neither
      its income nor its costs exceed int64. */
  lemma {:induction false} ClosingPostableIff(rows: seq<Row>)
    requires RowsFit(rows)
    ensures Postable(ClosingLines(rows)) <==>
            ResultOf(rows) != 0 && Gains(rows) <= MAX_INT64 && Costs(rows) <= MAX_INT64
  {
    ResultIsGainsLessCosts(rows);
    MinimalShows(rows);
    if Postable(ClosingLines(rows)) {
      PostableHasResult(rows);
    }
    if NoneMinimal(rows) && Gains(rows) <= MAX_INT64 && Costs(rows) <= MAX_INT64 {
      ResultPostable(rows);
    }
  }

  lemma {:induction false} PostableHasResult(rows: seq<Row>)
    requires RowsFit(rows) && Postable(ClosingLines(rows))
    ensures NoneMinimal(rows) && ResultOf(rows) != 0 && Gains(rows) <= MAX_INT64 && Costs(rows) <= MAX_INT64
  {
    var xs, all := EmptyingLines(rows), ClosingLines(rows);
    MinimalShows(rows);
    assert forall i :: 0 <= i < |xs| ==> all[i] == xs[i];
    assert NoneMinimal(rows);
    EmptyingTotals(rows);
    ClosingIsExact(rows, All);
    assert OneSided(all[|xs|]);
    ResultIsGainsLessCosts(rows);
  }

  lemma {:induction false} ResultPostable(rows: seq<Row>)
    requires RowsFit(rows) && NoneMinimal(rows) && Gains(rows) <= MAX_INT64 && Costs(rows) <= MAX_INT64
    ensures ResultOf(rows) != 0 ==> Postable(ClosingLines(rows))
  {
    var xs, last := EmptyingLines(rows), ResultLine(WrappedResult(rows));
    EmptyingTotals(rows);
    ResultIsGainsLessCosts(rows);
    assert forall i :: 0 <= i < |xs| ==> ClosingLines(rows)[i] == xs[i];
  }

  lemma {:induction false} EmptyingKnown(rows: seq<Row>, accounts: map<string, string>)
    requires forall r :: r in rows ==> r.account in accounts
    ensures KnownAccounts(EmptyingLines(rows), accounts)
  {
    if rows != [] {
      EmptyingKnown(rows[..|rows| - 1], accounts);
    }
  }

  /** An open year is closed exactly when its balances can be read, it made a result,
      its income and its costs each fit in int64, its end is after the lock, and 2099
      is in the chart. */
  lemma {:induction false} CloseAcceptedIff(b: Book, fy: nat, text: string)
    requires WellKept(b) && fy in b.years && !b.years[fy].closed
    ensures var y := b.years[fy]; var rows := YearRows(b, y);
            Close(b, fy, text).Ok? <==>
              && RowsFit(rows) && ResultOf(rows) != 0 && Gains(rows) <= MAX_INT64 && Costs(rows) <= MAX_INT64
              && (b.lock.None? || y.ends > b.lock.value) && "2099" in b.accounts
  {
    var y := b.years[fy];
    var rows := YearRows(b, y);
    if RowsFit(rows) {
      ClosingPostableIff(rows);
      ResultIsGainsLessCosts(rows);
      ClosingChartedIff(b, y);
      PostKeepsBooks(b, CLOSE_SERIES, y.ends, text, ClosingLines(rows));
    }
  }

  /** A year with a balance on an account of classes 3 to 8. */
  predicate HasResultBalance(rows: seq<Row>) {
    exists r :: r in rows && r.net != 0 && r.account != "" && '3' <= r.account[0] <= '8'
  }

  lemma {:induction false} EmptyingNoneIff(rows: seq<Row>)
    ensures EmptyingLines(rows) != [] <==> HasResultBalance(rows)
  {
    if rows != [] {
      var n := |rows| - 1;
      EmptyingNoneIff(rows[..n]);
      ClassesAre(rows[n].account);
      assert forall r :: r in rows <==> r in rows[..n] || r == rows[n];
    }
  }

  /** Why a year is not closed: it does not exist, it is closed already, its balances
      cannot be read, nothing is to be closed, or its entry is refused. */
  lemma {:induction false} CloseRefusals(b: Book, fy: nat, text: string)
    ensures Close(b, fy, text) == Err(NoSuchYear) <==> fy !in b.years
    ensures Close(b, fy, text) == Err(YearClosed) <==> fy in b.years && b.years[fy].closed
    ensures fy in b.years && !b.years[fy].closed ==>
              var rows := TrialBalance(b.vouchers, BetweenExcluding(b.years[fy].starts, b.years[fy].ends, "O"));
              && (Close(b, fy, text) == Err(OutOfRange) <==> !RowsFit(rows))
              && (Close(b, fy, text) == Err(NothingToClose) <==> RowsFit(rows) && !HasResultBalance(rows))
              && (RowsFit(rows) && HasResultBalance(rows) ==>
                    var posted := Post(b, "O", b.years[fy].ends, text, ClosingLines(rows));
                    posted.Err? ==> Close(b, fy, text) == Err(Refused(posted.error)))
  {
    if fy in b.years {
      EmptyingNoneIff(YearRows(b, b.years[fy]));
    }
  }

  lemma {:induction false} ClosingChartedIff(b: Book, y: FiscalYear)
    requires WellKept(b)
    ensures KnownAccounts(ClosingLines(YearRows(b, y)), b.accounts) <==> RESULT_ACCOUNT in b.accounts
  {
    var p := BetweenExcluding(y.starts, y.ends, CLOSE_SERIES);
    var rows := YearRows(b, y);
    CoveredKnown(b.vouchers, p, b.accounts);
    GroupedKnown(CoveredLines(b.vouchers, p), b.accounts);
    EmptyingKnown(rows, b.accounts);
    var last := ResultLine(WrappedResult(rows));
    assert last in ClosingLines(rows) && last.account == RESULT_ACCOUNT;
    assert forall l :: l in ClosingLines(rows) ==> l in EmptyingLines(rows) || l == last;
  }

  // ---- What a close does to the reports ----

  /** Whatever balances it uses, a close appends one balanced series-O voucher dated at
      the year's end and advances the lock to that date; it can never move the lock
      backwards. */
  lemma {:induction false} ClosePosts(b: Book, fy: nat, y: FiscalYear, rows: seq<Row>, text: string)
    returns (v: Voucher)
    requires WellKept(b) && CloseWith(b, fy, y, rows, text).Ok?
    ensures fy in b.years && !b.years[fy].closed
    ensures var b' := CloseWith(b, fy, y, rows, text).value;
            && WellKept(b') && b'.vouchers == b.vouchers + [v] && b'.accounts == b.accounts
            && v == Voucher("O", CountSeries(b.vouchers, "O") + 1, y.ends, text, ClosingLines(rows))
            && Postable(v.lines)
            && b'.lock == Some(y.ends) && (b.lock.Some? ==> b.lock.value < y.ends)
            && b'.years == b.years[fy := y.(closed := true)]
  {
    PostKeepsBooks(b, "O", y.ends, text, ClosingLines(rows));
    v := CloseWith(b, fy, y, rows, text).value.vouchers[|b.vouchers|];
  }

  /** A close that is accepted on the balances of some books had something to close. */
  lemma {:induction false} YearNotEmpty(vs: seq<Voucher>, y: FiscalYear)
    requires EmptyingLines(TrialBalance(vs, BetweenExcluding(y.starts, y.ends, "O"))) != []
    ensures y.starts <= y.ends
  {
    if y.ends < y.starts {
      NothingCovered(vs, y);
    }
  }

  lemma {:induction false} NothingCovered(vs: seq<Voucher>, y: FiscalYear)
    requires y.ends < y.starts
    ensures CoveredLines(vs, BetweenExcluding(y.starts, y.ends, "O")) == []
  {
    if vs != [] {
      NothingCovered(vs[..|vs| - 1], y);
    }
  }

  /** The close may use balances that were read from earlier books, b0. What it leaves
      on a result account over the year is what was not in those balances. */
  lemma {:induction false} CloseLeaves(b0: Book, b: Book, fy: nat, y: FiscalYear, text: string, a: string)
    requires WellKept(b) && RowsFit(YearRows(b0, y)) && CloseWith(b, fy, y, YearRows(b0, y), text).Ok?
    requires a != "" && '3' <= a[0] <= '8'
    ensures Net(CloseWith(b, fy, y, YearRows(b0, y), text).value.vouchers, Between(y.starts, y.ends), One(a))
            == Net(b.vouchers, Between(y.starts, y.ends), One(a))
               - Net(b0.vouchers, BetweenExcluding(y.starts, y.ends, "O"), One(a))
  {
    var rows := YearRows(b0, y);
    var v := ClosePosts(b, fy, y, rows, text);
    YearNotEmpty(b0.vouchers, y);
    NetSnoc(b.vouchers, v, Between(y.starts, y.ends), One(a));
    ClosingByAccount(rows, a);
    TrialBalanceNet(b0.vouchers, BetweenExcluding(y.starts, y.ends, "O"), One(a));
  }

  /** So with no close voucher before it, exactly what was posted for the year between
      the reading and the close remains on each result account: nothing, if nothing. */
  lemma {:induction false} CloseLeavesWhatCameBetween(
    b0: Book, more: seq<Voucher>, b: Book, fy: nat, y: FiscalYear, text: string, a: string)
    requires WellKept(b) && b.vouchers == b0.vouchers + more && a != "" && '3' <= a[0] <= '8'
    requires RowsFit(YearRows(b0, y)) && CloseWith(b, fy, y, YearRows(b0, y), text).Ok?
    requires forall v :: v in b0.vouchers ==> v.series != "O"
    ensures Net(CloseWith(b, fy, y, YearRows(b0, y), text).value.vouchers, Between(y.starts, y.ends), One(a))
            == Net(more, Between(y.starts, y.ends), One(a))
  {
    CloseLeaves(b0, b, fy, y, text, a);
    NothingExcluded(b0.vouchers, y, One(a));
    NetAppend(b0.vouchers, more, Between(y.starts, y.ends), One(a));
  }

  /** A close on current balances empties every result account, as far as earlier close
      vouchers had not filled them. */
  lemma {:induction false} CloseEmptiesResultAccounts(b: Book, fy: nat, text: string, a: string)
    requires WellKept(b) && Close(b, fy, text).Ok? && a != "" && '3' <= a[0] <= '8'
    ensures var y := b.years[fy];
            Net(Close(b, fy, text).value.vouchers, Between(y.starts, y.ends), One(a))
            == Net(b.vouchers, Between(y.starts, y.ends), One(a))
               - Net(b.vouchers, BetweenExcluding(y.starts, y.ends, "O"), One(a))
    ensures (forall v :: v in b.vouchers ==> v.series != "O") ==>
              Net(Close(b, fy, text).value.vouchers, Between(b.years[fy].starts, b.years[fy].ends), One(a)) == 0
  {
    var y := b.years[fy];
    CloseLeaves(b, b, fy, y, text, a);
    if forall v :: v in b.vouchers ==> v.series != "O" {
      NothingExcluded(b.vouchers, y, One(a));
    }
  }

  lemma {:induction false} NothingExcluded(vs: seq<Voucher>, y: FiscalYear, w: Accounts)
    requires forall v :: v in vs ==> v.series != "O"
    ensures Net(vs, BetweenExcluding(y.starts, y.ends, "O"), w) == Net(vs, Between(y.starts, y.ends), w)
  {
    if vs != [] {
      NothingExcluded(vs[..|vs| - 1], y, w);
    }
  }

  /** The income statement, which leaves series O out, keeps every row, whatever
      balances the close uses. */
  lemma {:induction false} CloseKeepsIncomeStatement(
    b: Book, fy: nat, y: FiscalYear, rows: seq<Row>, text: string, from: int, to: int)
    requires WellKept(b) && CloseWith(b, fy, y, rows, text).Ok?
    ensures TrialBalance(CloseWith(b, fy, y, rows, text).value.vouchers, BetweenExcluding(from, to, "O"))
         == TrialBalance(b.vouchers, BetweenExcluding(from, to, "O"))
  {
    var v := ClosePosts(b, fy, y, rows, text);
    CoveredSnoc(b.vouchers, v, BetweenExcluding(from, to, "O"));
  }

  lemma {:induction false} CoveredSnoc(vs: seq<Voucher>, v: Voucher, p: Period)
    requires !Covers(p, v)
    ensures CoveredLines(vs + [v], p) == CoveredLines(vs, p)
  {
    assert (vs + [v])[..|vs|] == vs;
  }

  /** The balance sheet at any date d keeps its assets and liabilities, and so its
      total equity, whatever balances the close uses. From the year's end on, the
      result of those balances has moved from the synthetic equity row onto 2099;
      before it, nothing has. */
  lemma {:induction false} CloseKeepsBalanceSheet(b: Book, fy: nat, y: FiscalYear, rows: seq<Row>, text: string, d: int)
    requires WellKept(b) && RowsFit(rows) && CloseWith(b, fy, y, rows, text).Ok?
    ensures var vs, vs' := b.vouchers, CloseWith(b, fy, y, rows, text).value.vouchers;
            var moved := if d < y.ends then 0 else ResultOf(rows);
            && ResultOf(rows) != 0
            && Net(vs', AsOf(d), OfClass(Asset)) == Net(vs, AsOf(d), OfClass(Asset))
            && Net(vs', AsOf(d), Liabilities) == Net(vs, AsOf(d), Liabilities)
            && Net(vs', AsOf(d), Equity) == Net(vs, AsOf(d), Equity) - moved
            && Net(vs', AsOf(d), One("2099")) == Net(vs, AsOf(d), One("2099")) - moved
            && Synthetic(TrialBalance(vs', AsOf(d))) == Synthetic(TrialBalance(vs, AsOf(d))) - moved
  {
    var v := ClosePosts(b, fy, y, rows, text);
    SheetKept(b.vouchers, v, rows, d, if d < y.ends then 0 else ResultOf(rows));
  }

  lemma {:induction false} SheetKept(vs: seq<Voucher>, v: Voucher, rows: seq<Row>, d: int, moved: int)
    requires RowsFit(rows) && v.lines == ClosingLines(rows) && Postable(v.lines)
    requires moved == if d < v.date then 0 else ResultOf(rows)
    ensures var vs' := vs + [v];
            && ResultOf(rows) != 0
            && Net(vs', AsOf(d), OfClass(Asset)) == Net(vs, AsOf(d), OfClass(Asset))
            && Net(vs', AsOf(d), Liabilities) == Net(vs, AsOf(d), Liabilities)
            && Net(vs', AsOf(d), Equity) == Net(vs, AsOf(d), Equity) - moved
            && Net(vs', AsOf(d), One("2099")) == Net(vs, AsOf(d), One("2099")) - moved
            && Synthetic(TrialBalance(vs', AsOf(d))) == Synthetic(TrialBalance(vs, AsOf(d))) - moved
  {
    assert IsEquity(RESULT_ACCOUNT) by { assert "20" <= RESULT_ACCOUNT; }
    SheetNet(vs, v, rows, d, OfClass(Asset));
    SheetNet(vs, v, rows, d, Liabilities);
    SheetNet(vs, v, rows, d, Equity);
    SheetNet(vs, v, rows, d, One("2099"));
  }

  lemma {:induction false} SheetNet(vs: seq<Voucher>, v: Voucher, rows: seq<Row>, d: int, w: Accounts)
    requires RowsFit(rows) && v.lines == ClosingLines(rows) && Postable(v.lines) && OffResults(w)
    ensures ResultOf(rows) != 0
    ensures Net(vs + [v], AsOf(d), w)
            == Net(vs, AsOf(d), w) - (if v.date <= d && Selects(w, RESULT_ACCOUNT) then ResultOf(rows) else 0)
    ensures RowsNet(TrialBalance(vs, AsOf(d)), w) == Net(vs, AsOf(d), w)
    ensures RowsNet(TrialBalance(vs + [v], AsOf(d)), w) == Net(vs + [v], AsOf(d), w)
  {
    ClosingIsExact(rows, w);
    ResultRowsElsewhere(rows, w);
    NetSnoc(vs, v, AsOf(d), w);
    TrialBalanceNet(vs, AsOf(d), w);
    TrialBalanceNet(vs + [v], AsOf(d), w);
  }

  /** A break-even year is never closed: its 2099 line would be zero. */
  lemma {:induction false} BreakEvenYearRefused(b: Book, fy: nat, text: string)
    requires WellKept(b) && fy in b.years && ResultOf(YearRows(b, b.years[fy])) == 0
    ensures Close(b, fy, text).Err?
  {
    if Close(b, fy, text).Ok? {
      CloseAcceptedIff(b, fy, text);
    }
  }
}
