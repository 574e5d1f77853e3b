/** Trial balances over a period, and the income statement and balance sheet
    built from them. */
module Reports {
  import opened Prelude
  import opened Ledger

  // ---- Which vouchers a report covers ----

  /** The four trial-balance queries of the store. */
  datatype Period =
    | Always
    | AsOf(to: int)
    | Between(from: int, to: int)
    | BetweenExcluding(from: int, to: int, series: string)

  predicate Covers(p: Period, v: Voucher) {
    match p
    case Always => true
    case AsOf(to) => v.date <= to
    case Between(from, to) => from <= v.date <= to
    case BetweenExcluding(from, to, series) => from <= v.date <= to && v.series != series
  }

  /** A period counts its first and its last day. */
  lemma {:induction false} CoversDays(p: Period, v: Voucher)
    ensures p.Always? ==> Covers(p, v)
    ensures p.AsOf? ==> (Covers(p, v) <==> v.date < p.to || v.date == p.to)
    ensures p.Between? ==> (Covers(p, v) <==> !(v.date < p.from || v.date > p.to))
    ensures p.BetweenExcluding? ==> (Covers(p, v) <==> !(v.date < p.from || v.date > p.to || v.series == p.series))
  {
  }

  /** Net of the covered vouchers over the selected accounts. */
  function Net(vs: seq<Voucher>, p: Period, w: Accounts): int {
    if vs == [] then 0
    else Net(vs[..|vs| - 1], p, w) + Share(vs[|vs| - 1], p, w)
  }

  function Share(v: Voucher, p: Period, w: Accounts): int {
    if Covers(p, v) then NetOf(v.lines, w) else 0
  }

  lemma {:induction false} NetAppend(xs: seq<Voucher>, ys: seq<Voucher>, p: Period, w: Accounts)
    ensures Net(xs + ys, p, w) == Net(xs, p, w) + Net(ys, p, w)
  {
    if ys == [] {
      assert xs + ys == xs;
    } else {
      var n := |ys| - 1;
      NetAppend(xs, ys[..n], p, w);
      assert (xs + ys)[..|xs + ys| - 1] == xs + ys[..n];
    }
  }

  lemma {:induction false} NetSnoc(vs: seq<Voucher>, v: Voucher, p: Period, w: Accounts)
    ensures Net(vs + [v], p, w) == Net(vs, p, w) + Share(v, p, w)
  {
    assert (vs + [v])[..|vs|] == vs;
  }

  /** Balanced books balance in every period. */
  lemma {:induction false} BooksBalance(vs: seq<Voucher>, p: Period)
    requires forall v :: v in vs ==> Postable(v.lines)
    ensures Net(vs, p, All) == 0
  {
    if vs != [] {
      BooksBalance(vs[..|vs| - 1], p);
      NetOfAll(vs[|vs| - 1].lines);
    }
  }

  // ---- Trial balance rows: grouped by account, in account order ----

  datatype Row = Row(account: string, net: int)

  /** Byte order on account numbers. */
  predicate Less(a: string, b: string) {
    if b == "" then false
    else if a == "" then true
    else if a[0] == b[0] then Less(a[1..], b[1..])
    else a[0] < b[0]
  }

  /** a is a proper prefix of b, or the first character in which they differ decides. */
  lemma {:induction false} LessIs(a: string, b: string)
    ensures Less(a, b) <==>
              exists k :: 0 <= k <= |a| && k < |b| && a[..k] == b[..k] && (k == |a| || a[k] < b[k])
  {
    if b != "" && a != "" && a[0] == b[0] {
      LessIs(a[1..], b[1..]);
      if k :| 0 <= k <= |a[1..]| && k < |b[1..]| && a[1..][..k] == b[1..][..k]
              && (k == |a[1..]| || a[1..][k] < b[1..][k])
      {
        assert a[..k + 1] == [a[0]] + a[1..][..k] && b[..k + 1] == [b[0]] + b[1..][..k];
      }
      if k :| 0 <= k <= |a| && k < |b| && a[..k] == b[..k] && (k == |a| || a[k] < b[k]) {
        assert k > 0;
        assert a[1..][..k - 1] == a[..k][1..] && b[1..][..k - 1] == b[..k][1..];
      }
    } else {
      assert a[..0] == b[..0];
      assert forall k :: 0 < k <= |a| && k < |b| && a[..k] == b[..k] ==> a[..k][0] == b[..k][0];
    }
  }

  function AddTo(rows: seq<Row>, account: string, x: int): seq<Row> {
    if rows == [] then [Row(account, x)]
    else if rows[0].account == account then [Row(account, rows[0].net + x)] + rows[1..]
    else if Less(account, rows[0].account) then [Row(account, x)] + rows
    else [rows[0]] + AddTo(rows[1..], account, x)
  }

  function Grouped(lines: seq<Line>): seq<Row> {
    if lines == [] then []
    else
      var l := lines[|lines| - 1];
      AddTo(Grouped(lines[..|lines| - 1]), l.account, l.debit - l.credit)
  }

  function CoveredLines(vs: seq<Voucher>, p: Period): seq<Line> {
    if vs == [] then []
    else CoveredLines(vs[..|vs| - 1], p) + if Covers(p, vs[|vs| - 1]) then vs[|vs| - 1].lines else []
  }

  function TrialBalance(vs: seq<Voucher>, p: Period): seq<Row> {
    Grouped(CoveredLines(vs, p))
  }

  /** Every sum fits the BIGINT the query casts it to. */
  predicate RowsFit(rows: seq<Row>) {
    forall i :: 0 <= i < |rows| ==> Fits(rows[i].net)
  }

  /** A query whose sum does not fit fails. */
  function Query(vs: seq<Voucher>, p: Period): Option<seq<Row>> {
    if RowsFit(TrialBalance(vs, p)) then Some(TrialBalance(vs, p)) else None
  }

  /** Sum of the rows of the selected accounts. */
  function RowsNet(rows: seq<Row>, w: Accounts): int {
    if rows == [] then 0
    else RowsNet(rows[..|rows| - 1], w) + RowEffect(rows[|rows| - 1], w)
  }

  function RowEffect(r: Row, w: Accounts): int {
    if Selects(w, r.account) then r.net else 0
  }

  predicate InAccountOrder(rows: seq<Row>) {
    forall i, j :: 0 <= i < j < |rows| ==> Less(rows[i].account, rows[j].account)
  }

  lemma {:induction false} RowsNetAppend(xs: seq<Row>, ys: seq<Row>, w: Accounts)
    ensures RowsNet(xs + ys, w) == RowsNet(xs, w) + RowsNet(ys, w)
  {
    if ys == [] {
      assert xs + ys == xs;
    } else {
      var n := |ys| - 1;
      RowsNetAppend(xs, ys[..n], w);
      assert (xs + ys)[..|xs + ys| - 1] == xs + ys[..n];
    }
  }

  lemma {:induction false} AddToNet(rows: seq<Row>, account: string, x: int, w: Accounts)
    ensures RowsNet(AddTo(rows, account, x), w) == RowsNet(rows, w) + RowEffect(Row(account, x), w)
  {
    if rows != [] {
      assert rows == [rows[0]] + rows[1..];
      RowsNetAppend([rows[0]], rows[1..], w);
      if rows[0].account == account {
        RowsNetAppend([Row(account, rows[0].net + x)], rows[1..], w);
      } else if Less(account, rows[0].account) {
        RowsNetAppend([Row(account, x)], rows, w);
      } else {
        AddToNet(rows[1..], account, x, w);
        RowsNetAppend([rows[0]], AddTo(rows[1..], account, x), w);
      }
    }
  }

  lemma {:induction false} GroupedNet(lines: seq<Line>, w: Accounts)
    ensures RowsNet(Grouped(lines), w) == NetOf(lines, w)
  {
    if lines != [] {
      var n := |lines| - 1;
      GroupedNet(lines[..n], w);
      AddToNet(Grouped(lines[..n]), lines[n].account, lines[n].debit - lines[n].credit, w);
    }
  }

  lemma {:induction false} CoveredNet(vs: seq<Voucher>, p: Period, w: Accounts)
    ensures NetOf(CoveredLines(vs, p), w) == Net(vs, p, w)
  {
    if vs != [] {
      var n := |vs| - 1;
      CoveredNet(vs[..n], p, w);
      CoveredOne(CoveredLines(vs[..n], p), vs[n], p, w);
    }
  }

  lemma {:induction false} CoveredOne(before: seq<Line>, v: Voucher, p: Period, w: Accounts)
    ensures NetOf(before + if Covers(p, v) then v.lines else [], w) == NetOf(before, w) + Share(v, p, w)
  {
    NetOfAppend(before, v.lines, w);
    assert before + [] == before;
  }

  /** Grouping loses nothing: the rows of any selection add up to the net of the
      covered vouchers, and the rows of balanced books add up to zero. */
  lemma {:induction false} TrialBalanceNet(vs: seq<Voucher>, p: Period, w: Accounts)
    ensures RowsNet(TrialBalance(vs, p), w) == Net(vs, p, w)
    ensures Query(vs, p).Some? ==> RowsNet(Query(vs, p).value, w) == Net(vs, p, w)
    ensures (forall v :: v in vs ==> Postable(v.lines)) ==> RowsNet(TrialBalance(vs, p), All) == 0
  {
    GroupedNet(CoveredLines(vs, p), w);
    CoveredNet(vs, p, w);
    GroupedNet(CoveredLines(vs, p), All);
    CoveredNet(vs, p, All);
    if forall v :: v in vs ==> Postable(v.lines) {
      BooksBalance(vs, p);
    }
  }

  lemma {:induction false} LessIsStrictOrder(a: string, b: string, c: string)
    ensures !Less(a, a)
    ensures a == b || Less(a, b) || Less(b, a)
    ensures Less(a, b) && Less(b, c) ==> Less(a, c)
  {
    if a != "" {
      LessIsStrictOrder(a[1..], if b == "" then b else b[1..], if c == "" then c else c[1..]);
    }
    if a != "" && b != "" && a[0] == b[0] && a[1..] == b[1..] {
      assert a == [a[0]] + a[1..] == b;
    }
  }

  ghost function RowAccounts(rows: seq<Row>): set<string> {
    if rows == [] then {} else {rows[0].account} + RowAccounts(rows[1..])
  }

  ghost function LineAccounts(lines: seq<Line>): set<string> {
    if lines == [] then {} else LineAccounts(lines[..|lines| - 1]) + {lines[|lines| - 1].account}
  }

  lemma {:induction false} LineAccountsCollect(lines: seq<Line>)
    ensures forall l :: l in lines ==> l.account in LineAccounts(lines)
  {
    if lines != [] {
      LineAccountsCollect(lines[..|lines| - 1]);
    }
  }

  lemma {:induction false} AddToRows(rows: seq<Row>, account: string, x: int)
    ensures forall r :: r in AddTo(rows, account, x) ==> r.account == account || r in rows
  {
    if rows != [] {
      AddToRows(rows[1..], account, x);
    }
  }

  predicate Below(a: string, rows: seq<Row>) {
    forall j :: 0 <= j < |rows| ==> Less(a, rows[j].account)
  }

  lemma {:induction false} OrderCons(head: Row, tail: seq<Row>)
    ensures InAccountOrder([head] + tail) <==> InAccountOrder(tail) && Below(head.account, tail)
    ensures RowAccounts([head] + tail) == {head.account} + RowAccounts(tail)
  {
    var all := [head] + tail;
    assert all[1..] == tail;
    if InAccountOrder(all) {
      forall i, j | 0 <= i < j < |tail| ensures Less(tail[i].account, tail[j].account) {
        assert all[i + 1] == tail[i] && all[j + 1] == tail[j];
      }
      forall j | 0 <= j < |tail| ensures Less(head.account, tail[j].account) {
        assert all[0] == head && all[j + 1] == tail[j];
      }
    }
  }

  lemma {:induction false} BelowCons(a: string, head: Row, tail: seq<Row>)
    ensures Below(a, [head] + tail) <==> Less(a, head.account) && Below(a, tail)
  {
    var all := [head] + tail;
    assert forall j :: 0 <= j < |tail| ==> all[j + 1] == tail[j];
    assert all[0] == head;
  }

  lemma {:induction false} BelowLess(a: string, b: string, rows: seq<Row>)
    requires Less(a, b) && Below(b, rows)
    ensures Below(a, rows)
  {
    forall j | 0 <= j < |rows| ensures Less(a, rows[j].account) {
      LessIsStrictOrder(a, b, rows[j].account);
    }
  }

  lemma {:induction false} AddToBelow(a: string, rows: seq<Row>, account: string, x: int)
    requires Below(a, rows) && Less(a, account)
    ensures Below(a, AddTo(rows, account, x))
  {
    if rows != [] {
      assert rows == [rows[0]] + rows[1..];
      BelowCons(a, rows[0], rows[1..]);
      BelowCons(a, Row(account, rows[0].net + x), rows[1..]);
      BelowCons(a, Row(account, x), rows);
      AddToBelow(a, rows[1..], account, x);
      BelowCons(a, rows[0], AddTo(rows[1..], account, x));
    }
  }

  lemma {:induction false} AddToKeepsOrder(rows: seq<Row>, account: string, x: int)
    requires InAccountOrder(rows)
    ensures InAccountOrder(AddTo(rows, account, x))
    ensures RowAccounts(AddTo(rows, account, x)) == RowAccounts(rows) + {account}
  {
    if rows == [] {
      OrderCons(Row(account, x), []);
      assert [Row(account, x)] + [] == [Row(account, x)];
    } else {
      var head, rest := rows[0], rows[1..];
      assert rows == [head] + rest;
      OrderCons(head, rest);
      if head.account == account {
        OrderCons(Row(account, head.net + x), rest);
      } else if Less(account, head.account) {
        OrderCons(Row(account, x), rows);
        BelowLess(account, head.account, rest);
        BelowCons(account, head, rest);
      } else {
        LessIsStrictOrder(account, head.account, account);
        AddToKeepsOrder(rest, account, x);
        AddToBelow(head.account, rest, account, x);
        OrderCons(head, AddTo(rest, account, x));
      }
    }
  }

  /** One row per account that occurs, sorted by account. */
  lemma {:induction false} GroupedIsSorted(lines: seq<Line>)
    ensures InAccountOrder(Grouped(lines)) && RowAccounts(Grouped(lines)) == LineAccounts(lines)
  {
    if lines != [] {
      var n := |lines| - 1;
      GroupedIsSorted(lines[..n]);
      GroupedStep(Grouped(lines[..n]), LineAccounts(lines[..n]), lines[n], Grouped(lines), LineAccounts(lines));
    }
  }

  lemma {:induction false} GroupedStep(rows: seq<Row>, accounts: set<string>, l: Line, rows': seq<Row>,
      accounts': set<string>)
    requires InAccountOrder(rows) && RowAccounts(rows) == accounts
    requires rows' == AddTo(rows, l.account, l.debit - l.credit) && accounts' == accounts + {l.account}
    ensures InAccountOrder(rows') && RowAccounts(rows') == accounts'
  {
    AddToKeepsOrder(rows, l.account, l.debit - l.credit);
  }

  lemma {:induction false} RowAccountsAre(rows: seq<Row>, a: string)
    ensures a in RowAccounts(rows) <==> exists i :: 0 <= i < |rows| && rows[i].account == a
  {
    if rows != [] {
      RowAccountsAre(rows[1..], a);
      if a in RowAccounts(rows[1..]) {
        var i :| 0 <= i < |rows[1..]| && rows[1..][i].account == a;
        assert rows[i + 1].account == a;
      }
      if i :| 0 <= i < |rows| && rows[i].account == a {
        assert i > 0 ==> rows[1..][i - 1].account == a;
      }
    }
  }

  lemma {:induction false} RowsNetAbsent(rows: seq<Row>, a: string)
    requires a !in RowAccounts(rows)
    ensures RowsNet(rows, One(a)) == 0
  {
    if rows != [] {
      assert rows == [rows[0]] + rows[1..];
      RowsNetAppend([rows[0]], rows[1..], One(a));
      RowsNetAbsent(rows[1..], a);
      assert [rows[0]][..0] == [];
    }
  }

  /** Sorted rows: the first account is in no later row, and is below them all. */
  lemma {:induction false} HeadFirst(rows: seq<Row>, a: string)
    requires rows != [] && InAccountOrder(rows) && a in RowAccounts(rows)
    ensures rows[0].account !in RowAccounts(rows[1..])
    ensures a == rows[0].account || Less(rows[0].account, a)
    ensures RowsNet(rows, One(rows[0].account)) == rows[0].net
    ensures a != rows[0].account ==> RowsNet(rows, One(a)) == RowsNet(rows[1..], One(a))
  {
    var h := rows[0].account;
    RowAccountsAre(rows[1..], h);
    LessIsStrictOrder(h, h, h);
    assert forall i :: 0 <= i < |rows[1..]| ==> Less(h, rows[1..][i].account);
    RowAccountsAre(rows, a);
    RowsNetAbsent(rows[1..], h);
    assert rows == [rows[0]] + rows[1..];
    RowsNetAppend([rows[0]], rows[1..], One(h));
    RowsNetAppend([rows[0]], rows[1..], One(a));
    assert [rows[0]][..0] == [];
  }

  /** The accounts that occur and their nets determine the rows. */
  lemma {:induction false} RowsDetermined(xs: seq<Row>, ys: seq<Row>)
    requires InAccountOrder(xs) && InAccountOrder(ys) && RowAccounts(xs) == RowAccounts(ys)
    requires forall a :: a in RowAccounts(xs) ==> RowsNet(xs, One(a)) == RowsNet(ys, One(a))
    ensures xs == ys
  {
    if xs != [] {
      HeadFirst(xs, ys[0].account);
      HeadFirst(ys, xs[0].account);
      LessIsStrictOrder(xs[0].account, ys[0].account, xs[0].account);
      forall a | a in RowAccounts(xs[1..]) ensures RowsNet(xs[1..], One(a)) == RowsNet(ys[1..], One(a)) {
        HeadFirst(xs, a);
        HeadFirst(ys, a);
      }
      assert RowAccounts(xs[1..]) == RowAccounts(ys[1..]);
      RowsDetermined(xs[1..], ys[1..]);
    }
  }

  /** In sorted rows every row is its account's net. */
  lemma {:induction false} SortedRowIs(rows: seq<Row>, i: nat)
    requires InAccountOrder(rows) && i < |rows|
    ensures RowsNet(rows, One(rows[i].account)) == rows[i].net
  {
    RowAccountsAre(rows, rows[i].account);
    HeadFirst(rows, rows[i].account);
    if i > 0 {
      LessIsStrictOrder(rows[0].account, rows[i].account, rows[0].account);
      SortedRowIs(rows[1..], i - 1);
    }
  }

  /** A query fails exactly when the net of some account leaves int64. */
  lemma {:induction false} QueryIff(vs: seq<Voucher>, p: Period)
    ensures Query(vs, p).Some? <==>
              forall a :: a in LineAccounts(CoveredLines(vs, p)) ==> MIN_INT64 <= Net(vs, p, One(a)) <= MAX_INT64
  {
    var rows := TrialBalance(vs, p);
    GroupedIsSorted(CoveredLines(vs, p));
    forall i | 0 <= i < |rows| ensures rows[i].net == Net(vs, p, One(rows[i].account)) {
      SortedRowIs(rows, i);
      TrialBalanceNet(vs, p, One(rows[i].account));
    }
    forall i | 0 <= i < |rows| ensures rows[i].account in LineAccounts(CoveredLines(vs, p)) {
      RowAccountsAre(rows, rows[i].account);
    }
    forall a | a in LineAccounts(CoveredLines(vs, p)) && RowsFit(rows)
      ensures MIN_INT64 <= Net(vs, p, One(a)) <= MAX_INT64
    {
      RowAccountsAre(rows, a);
      var i :| 0 <= i < |rows| && rows[i].account == a;
      assert Fits(rows[i].net);
    }
  }

  // ---- Balances: the same figures, accumulated in a map ----

  /** Each balance is the account's net in int64. */
  method Balances(vs: seq<Voucher>) returns (m: map<string, int>)
    ensures forall a :: a in m ==> m[a] == Wrap(Net(vs, Always, One(a)))
    ensures m.Keys == LineAccounts(CoveredLines(vs, Always))
  {
    m := map[];
    for i := 0 to |vs|
      invariant Tallies(m, CoveredLines(vs[..i], Always))
    {
      assert vs[..i + 1][..i] == vs[..i];
      m := TallyLines(m, vs[i].lines, CoveredLines(vs[..i], Always));
    }
    assert vs[..|vs|] == vs;
    forall a | a in m ensures m[a] == Wrap(Net(vs, Always, One(a))) {
      CoveredNet(vs, Always, One(a));
    }
  }

  /** The inner loop of Balances, over the lines of one voucher. */
  method TallyLines(m0: map<string, int>, lines: seq<Line>, ghost before: seq<Line>) returns (m: map<string, int>)
    requires Tallies(m0, before)
    ensures Tallies(m, before + lines)
  {
    m := m0;
    ghost var seen := before;
    for j := 0 to |lines|
      invariant seen == before + lines[..j]
      invariant Tallies(m, seen)
    {
      TallyOne(m, seen, lines[j]);
      m := m[lines[j].account := Added(m, lines[j])];
      seen := seen + [lines[j]];
    }
    assert lines[..|lines|] == lines;
  }

  /** m[l.Account] += l.Debit - l.Credit, where a missing entry is zero. */
  function Added(m: map<string, int>, l: Line): int {
    Plus64(if l.account in m then m[l.account] else 0, Minus64(l.debit, l.credit))
  }

  ghost predicate Tallies(m: map<string, int>, lines: seq<Line>) {
    m.Keys == LineAccounts(lines) && forall a :: a in m ==> m[a] == Wrap(NetOf(lines, One(a)))
  }

  lemma {:induction false} TallyOne(m: map<string, int>, lines: seq<Line>, l: Line)
    requires Tallies(m, lines)
    ensures Tallies(m[l.account := Added(m, l)], lines + [l])
  {
    assert (lines + [l])[..|lines|] == lines;
    if l.account !in m {
      LineAccountsCollect(lines);
      NetOfAbsent(lines, One(l.account));
    }
    WrapAdd(NetOf(lines, One(l.account)), Minus64(l.debit, l.credit));
    WrapAdd(l.debit - l.credit, NetOf(lines, One(l.account)));
  }

  // ---- Result and balancing figure ----

  /** Profit (positive) or loss implied by a trial balance. */
  function ResultOf(rows: seq<Row>): int {
    -RowsNet(rows, Results)
  }

  /** The figure that makes the balance sheet balance. */
  function Synthetic(rows: seq<Row>): int {
    RowsNet(rows, OfClass(Asset)) + RowsNet(rows, Equity) + RowsNet(rows, Liabilities)
  }

  /** The sections of the chart partition every total. */
  lemma {:induction false} RowsNetSplits(rows: seq<Row>)
    ensures RowsNet(rows, All) == Synthetic(rows) - ResultOf(rows) + RowsNet(rows, OfClass(UnknownClass))
  {
    if rows != [] {
      RowsNetSplits(rows[..|rows| - 1]);
    }
  }

  /** In balanced books the synthetic equity row is the live result, exactly when
      accounts outside classes 1-8 net to nothing. */
  lemma {:induction false} SyntheticIsLiveResult(vs: seq<Voucher>, p: Period)
    requires forall v :: v in vs ==> Postable(v.lines)
    ensures Synthetic(TrialBalance(vs, p)) == ResultOf(TrialBalance(vs, p)) <==> Net(vs, p, OfClass(UnknownClass)) == 0
  {
    RowsNetSplits(TrialBalance(vs, p));
    TrialBalanceNet(vs, p, OfClass(UnknownClass));
  }
}
