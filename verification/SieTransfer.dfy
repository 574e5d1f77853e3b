/** Moving a company's books through a SIE file: ExportSIE builds the export,
    ImportSIE replays one into an empty company. */
module SieTransfer {
  import opened Prelude
  import opened Ledger
  import opened Reports
  import opened Books
  import Runs
  import Sie

  // ---- Export ----

  /** ORDER BY vdate, series, number. */
  predicate Before(v: Voucher, w: Voucher) {
    || v.date < w.date
    || (v.date == w.date && (Less(v.series, w.series) || (v.series == w.series && v.number <= w.number)))
  }

  function Insert(v: Voucher, vs: seq<Voucher>): seq<Voucher> {
    if vs == [] || Before(v, vs[0]) then [v] + vs else [vs[0]] + Insert(v, vs[1..])
  }

  function Listing(vs: seq<Voucher>): seq<Voucher> {
    if vs == [] then [] else Insert(vs[0], Listing(vs[1..]))
  }

  function ExportLine(l: Line): Sie.Trans {
    Sie.Trans(l.account, Minus64(l.debit, l.credit), "")
  }

  function ExportLines(lines: seq<Line>): seq<Sie.Trans> {
    seq(|lines|, i requires 0 <= i < |lines| => ExportLine(lines[i]))
  }

  function ExportVoucher(v: Voucher): Sie.Ver
    requires Sie.IsDay(v.date)
  {
    Sie.Ver(v.series, v.number, v.date, v.text, ExportLines(v.lines))
  }

  function ExportVouchers(vs: seq<Voucher>): seq<Sie.Ver>
    requires forall i :: 0 <= i < |vs| ==> Sie.IsDay(vs[i].date)
  {
    seq(|vs|, i requires 0 <= i < |vs| => ExportVoucher(vs[i]))
  }

  /** Balances of the wanted accounts; a failed query leaves the section empty. */
  function BalanceSection(rows: seq<Row>, results: bool): seq<Sie.Balance> {
    if !RowsFit(rows) then [] else Chosen(rows, results)
  }

  predicate Wanted(r: Row, results: bool) {
    r.net != 0 && if results then IsResult(Classify(r.account)) else IsBalance(Classify(r.account))
  }

  function Chosen(rows: seq<Row>, results: bool): seq<Sie.Balance> {
    if rows == [] then []
    else
      var r := rows[|rows| - 1];
      Chosen(rows[..|rows| - 1], results) + if Wanted(r, results) then [Sie.Balance(r.account, r.net)] else []
  }

  /** The accounts query: every charted account once, with its name. */
  ghost predicate Lists(chart: seq<Sie.Account>, accounts: map<string, string>) {
    && (forall i :: 0 <= i < |chart| ==> chart[i].number in accounts && accounts[chart[i].number] == chart[i].name)
    && (forall a :: a in accounts ==> exists i :: 0 <= i < |chart| && chart[i].number == a)
  }

  predicate DatedInDays(vs: seq<Voucher>) {
    forall i :: 0 <= i < |vs| ==> Sie.IsDay(vs[i].date)
  }

  function FirstDay(y: int): Sie.Day
    requires 0 <= y <= 9999
  {
    var n := y * 10000 + 101;
    assert n / 100 == y * 100 + 1 && n / 10000 == y && n % 100 == 1;
    n
  }

  function LastDay(y: int): Sie.Day
    requires 0 <= y <= 9999
  {
    var n := y * 10000 + 1231;
    assert n / 100 == y * 100 + 12 && n / 10000 == y && n % 100 == 31;
    n
  }

  /** The year of the earliest voucher, or of the export itself. */
  function ExportYear(listed: seq<Voucher>, generated: Sie.Day): (y: int)
    requires DatedInDays(listed)
    ensures 0 <= y <= 9999
  {
    var d := if listed == [] then generated else listed[0].date;
    assert Sie.IsDay(d);
    d / 10000
  }

  /** The day before the first day of year y. */
  function EveOf(y: int): int {
    (y - 1) * 10000 + 1231
  }

  /** The export of b, its vouchers listed with their lines. */
  function ExportOf(b: Book, listed: seq<Voucher>, chart: seq<Sie.Account>, name: string, orgNr: string,
      generated: Sie.Day): Sie.Export
    requires DatedInDays(listed)
  {
    var y := ExportYear(listed, generated);
    Sie.Export(name, orgNr, FirstDay(y), LastDay(y), generated, chart, ExportVouchers(listed),
               BalanceSection(TrialBalance(b.vouchers, AsOf(EveOf(y))), false),
               BalanceSection(TrialBalance(b.vouchers, AsOf(LastDay(y))), false),
               BalanceSection(TrialBalance(b.vouchers, Between(FirstDay(y), LastDay(y))), true))
  }

  /** A row of the lines query: the line, and which listed voucher it belongs to. */
  datatype LineRow = LineRow(voucher: nat, line: Line)

  function LinesOf(rows: seq<LineRow>, k: nat): seq<Line> {
    if rows == [] then []
    else if rows[|rows| - 1].voucher == k then LinesOf(rows[..|rows| - 1], k) + [rows[|rows| - 1].line]
    else LinesOf(rows[..|rows| - 1], k)
  }

  /** The vouchers, each with the lines that the rows hold for it. */
  function Gathered(vs: seq<Voucher>, rows: seq<LineRow>): seq<Voucher> {
    seq(|vs|, k requires 0 <= k < |vs| => vs[k].(lines := LinesOf(rows, k)))
  }

  /** The same vouchers in the same order, each with its lines in some order: the lines
      query has no ORDER BY. */
  ghost predicate Relined(vs: seq<Voucher>, us: seq<Voucher>) {
    |us| == |vs| && forall k :: 0 <= k < |vs| ==>
      us[k] == vs[k].(lines := us[k].lines) && multiset(us[k].lines) == multiset(vs[k].lines)
  }

  function At(byVoucher: map<nat, seq<Sie.Trans>>, k: nat): seq<Sie.Trans> {
    if k in byVoucher then byVoucher[k] else []
  }

  ghost predicate Groups(byVoucher: map<nat, seq<Sie.Trans>>, rows: seq<LineRow>) {
    forall k: nat :: At(byVoucher, k) == ExportLines(LinesOf(rows, k))
  }

  method GroupLines(rows: seq<LineRow>) returns (byVoucher: map<nat, seq<Sie.Trans>>)
    ensures Groups(byVoucher, rows)
  {
    byVoucher := map[];
    for i := 0 to |rows|
      invariant Groups(byVoucher, rows[..i])
    {
      var r := rows[i];
      GroupsSnoc(byVoucher, rows[..i], r);
      assert rows[..i + 1] == rows[..i] + [r];
      byVoucher := byVoucher[r.voucher := At(byVoucher, r.voucher) + [ExportLine(r.line)]];
    }
    assert rows[..|rows|] == rows;
  }

  lemma {:induction false} GroupsSnoc(byVoucher: map<nat, seq<Sie.Trans>>, rows: seq<LineRow>, r: LineRow)
    requires Groups(byVoucher, rows)
    ensures Groups(byVoucher[r.voucher := At(byVoucher, r.voucher) + [ExportLine(r.line)]], rows + [r])
  {
    var after := byVoucher[r.voucher := At(byVoucher, r.voucher) + [ExportLine(r.line)]];
    assert (rows + [r])[..|rows|] == rows;
    forall k: nat ensures At(after, k) == ExportLines(LinesOf(rows + [r], k)) {
      assert At(byVoucher, k) == ExportLines(LinesOf(rows, k));
    }
  }

  method BuildSection(rows: seq<Row>, results: bool) returns (bs: seq<Sie.Balance>)
    ensures bs == BalanceSection(rows, results)
  {
    bs := [];
    if !RowsFit(rows) {
      return;
    }
    for i := 0 to |rows|
      invariant bs == Chosen(rows[..i], results)
    {
      assert rows[..i + 1][..i] == rows[..i];
      var cls := Classify(rows[i].account);
      if (if results then IsResult(cls) else IsBalance(cls)) && rows[i].net != 0 {
        bs := bs + [Sie.Balance(rows[i].account, rows[i].net)];
      }
    }
    assert rows[..|rows|] == rows;
  }

  /** From the chart, the listed vouchers and their lines, as the queries return them:
      each voucher's lines once, in any order. */
  method ExportSIE(company: Company, chart: seq<Sie.Account>, rows: seq<LineRow>, name: string, orgNr: string,
      generated: Sie.Day)
    returns (e: Sie.Export)
    requires DatedInDays(Listing(company.vouchers))
    requires Relined(Listing(company.vouchers), Gathered(Listing(company.vouchers), rows))
    ensures e == ExportOf(company.Current(), Gathered(Listing(company.vouchers), rows), chart, name, orgNr, generated)
  {
    var listed := Listing(company.vouchers);
    ghost var gathered := Gathered(listed, rows);
    var byVoucher := GroupLines(rows);
    var vouchers: seq<Sie.Ver> := [];
    for k := 0 to |listed|
      invariant |vouchers| == k && forall j :: 0 <= j < k ==> vouchers[j] == ExportVoucher(gathered[j])
    {
      var v := listed[k];
      assert Sie.IsDay(v.date);
      vouchers := vouchers + [Sie.Ver(v.series, v.number, v.date, v.text, At(byVoucher, k))];
    }
    assert vouchers == ExportVouchers(gathered);
    var y := if |listed| > 0 then listed[0].date / 10000 else generated / 10000;
    assert y == ExportYear(gathered, generated);
    var start, end := FirstDay(y), LastDay(y);
    var ib := BuildSection(TrialBalance(company.vouchers, AsOf(EveOf(y))), false);
    var ub := BuildSection(TrialBalance(company.vouchers, AsOf(end)), false);
    var res := BuildSection(TrialBalance(company.vouchers, Between(start, end)), true);
    e := Sie.Export(name, orgNr, start, end, generated, chart, vouchers, ib, ub, res);
  }

  // ---- Import ----

  datatype ImportError = LedgerNotEmpty | Opening(why: Refusal) | Replay(why: Refusal)

  const OPENING_TEXT := "Ingående balans (import)"

  /** A signed amount as a debit or credit line. */
  function SignedLine(account: string, amount: int): Line {
    if amount >= 0 then Debit(account, amount) else Credit(account, Wrap(-amount))
  }

  function OpeningLines(bs: seq<Sie.Balance>): seq<Line> {
    if bs == [] then []
    else
      var b := bs[|bs| - 1];
      OpeningLines(bs[..|bs| - 1]) + if b.amount == 0 then [] else [SignedLine(b.account, b.amount)]
  }

  function ImportLines(lines: seq<Sie.Trans>): seq<Line> {
    seq(|lines|, i requires 0 <= i < |lines| => SignedLine(lines[i].account, lines[i].amount))
  }

  function ImportEntry(v: Sie.Ver): Runs.Entry {
    Runs.Entry(if v.series == "" then "A" else v.series, v.date, if v.text == "" then "Import" else v.text,
               ImportLines(v.lines))
  }

  function ImportEntries(vs: seq<Sie.Ver>): seq<Runs.Entry> {
    seq(|vs|, i requires 0 <= i < |vs| => ImportEntry(vs[i]))
  }

  function ChartPairs(accounts: seq<Sie.Account>): seq<(string, string)> {
    seq(|accounts|, i requires 0 <= i < |accounts| => (accounts[i].number, accounts[i].name))
  }

  function OpeningDate(e: Sie.Export, today: int): int {
    if e.yearStart == Sie.ZERO_DAY then today else e.yearStart
  }

  function WithOpening(b: Book, e: Sie.Export, today: int): Result<Book, Refusal> {
    if OpeningLines(e.opening) == [] then Ok(b)
    else Post(b, "IB", OpeningDate(e, today), OPENING_TEXT, OpeningLines(e.opening))
  }

  /** One transaction: all of the file, or nothing. */
  function Import(b: Book, e: Sie.Export, today: int): Result<Book, ImportError> {
    if b.vouchers != [] then Err(LedgerNotEmpty)
    else match WithOpening(Runs.WithAccounts(b, ChartPairs(e.accounts)), e, today)
      case Err(why) => Err(Opening(why))
      case Ok(b1) =>
        match Runs.PostAll(b1, ImportEntries(e.vouchers))
        case Err(why) => Err(Replay(why))
        case Ok(b2) => Ok(b2)
  }

  predicate AmountsFit(e: Sie.Export) {
    && (forall i :: 0 <= i < |e.opening| ==> Fits(e.opening[i].amount))
    && (forall i, j :: 0 <= i < |e.vouchers| && 0 <= j < |e.vouchers[i].lines| ==> Fits(e.vouchers[i].lines[j].amount))
  }

  method BuildOpening(bs: seq<Sie.Balance>) returns (lines: seq<Line>)
    requires forall i :: 0 <= i < |bs| ==> Fits(bs[i].amount)
    ensures lines == OpeningLines(bs)
    ensures forall l :: l in lines ==> Fits(l.debit) && Fits(l.credit)
  {
    lines := [];
    for i := 0 to |bs|
      invariant lines == OpeningLines(bs[..i])
      invariant forall l :: l in lines ==> Fits(l.debit) && Fits(l.credit)
    {
      assert bs[..i + 1][..i] == bs[..i];
      if bs[i].amount > 0 {
        lines := lines + [Debit(bs[i].account, bs[i].amount)];
      } else if bs[i].amount < 0 {
        lines := lines + [Credit(bs[i].account, Wrap(-bs[i].amount))];
      }
    }
    assert bs[..|bs|] == bs;
  }

  method BuildReplay(ts: seq<Sie.Trans>) returns (lines: seq<Line>)
    requires forall i :: 0 <= i < |ts| ==> Fits(ts[i].amount)
    ensures lines == ImportLines(ts)
    ensures forall l :: l in lines ==> Fits(l.debit) && Fits(l.credit)
  {
    lines := [];
    for i := 0 to |ts|
      invariant |lines| == i && forall k :: 0 <= k < i ==> lines[k] == SignedLine(ts[k].account, ts[k].amount)
      invariant forall l :: l in lines ==> Fits(l.debit) && Fits(l.credit)
    {
      if ts[i].amount >= 0 {
        lines := lines + [Debit(ts[i].account, ts[i].amount)];
      } else {
        lines := lines + [Credit(ts[i].account, Wrap(-ts[i].amount))];
      }
    }
  }

  method SeedAccounts(c: Company, accounts: seq<Sie.Account>)
    modifies c`accounts
    ensures c.Current() == Runs.WithAccounts(old(c.Current()), ChartPairs(accounts))
  {
    ghost var pairs := ChartPairs(accounts);
    for i := 0 to |accounts|
      invariant Runs.WithAccounts(c.Current(), pairs[i..]) == Runs.WithAccounts(old(c.Current()), pairs)
      invariant c.vouchers == old(c.vouchers) && c.lock == old(c.lock) && c.years == old(c.years)
    {
      assert pairs[i..][1..] == pairs[i + 1..];
      c.accounts := c.accounts[accounts[i].number := accounts[i].name];
    }
  }

  method ReplayVouchers(c: Company, vs: seq<Sie.Ver>) returns (r: Result<int, Refusal>)
    requires forall i, j :: 0 <= i < |vs| && 0 <= j < |vs[i].lines| ==> Fits(vs[i].lines[j].amount)
    modifies c`vouchers
    ensures match Runs.PostAll(old(c.Current()), ImportEntries(vs))
            case Ok(b) => c.Current() == b && r == Ok(|vs|)
            case Err(why) => r == Err(why)
  {
    ghost var entries := ImportEntries(vs);
    for i := 0 to |vs|
      invariant Runs.PostAll(c.Current(), entries[i..]) == Runs.PostAll(old(c.Current()), entries)
    {
      assert entries[i..][0] == ImportEntry(vs[i]) && entries[i..][1..] == entries[i + 1..];
      var lines := BuildReplay(vs[i].lines);
      var series := if vs[i].series == "" then "A" else vs[i].series;
      var text := if vs[i].text == "" then "Import" else vs[i].text;
      var posted := c.PostVerification(series, vs[i].date, text, lines);
      if posted.Err? {
        return Err(posted.error);
      }
    }
    return Ok(|vs|);
  }

  /** Seed the chart, post the opening balances, replay the vouchers. */
  method ImportInto(c: Company, e: Sie.Export, today: int) returns (r: Result<int, ImportError>)
    requires AmountsFit(e) && c.vouchers == []
    modifies c`accounts, c`vouchers
    ensures match Import(old(c.Current()), e, today)
            case Ok(b) => c.Current() == b && r == Ok(|e.vouchers|)
            case Err(why) => r == Err(why)
  {
    SeedAccounts(c, e.accounts);
    var opening := BuildOpening(e.opening);
    if |opening| > 0 {
      var date := if e.yearStart == Sie.ZERO_DAY then today else e.yearStart;
      var posted := c.PostVerification("IB", date, OPENING_TEXT, opening);
      if posted.Err? {
        return Err(Opening(posted.error));
      }
    }
    var replayed := ReplayVouchers(c, e.vouchers);
    if replayed.Err? {
      return Err(Replay(replayed.error));
    }
    return Ok(replayed.value);
  }

  /** The import is one transaction: on any refusal all of it is rolled back. */
  method ImportSIE(c: Company, e: Sie.Export, today: int) returns (r: Result<int, ImportError>)
    requires AmountsFit(e)
    modifies c
    ensures match Import(old(c.Current()), e, today)
            case Ok(b) => c.Current() == b && r == Ok(|e.vouchers|)
            case Err(why) => c.Current() == old(c.Current()) && r == Err(why)
  {
    if c.vouchers != [] {
      return Err(LedgerNotEmpty);
    }
    var accounts, vouchers := c.accounts, c.vouchers;
    r := ImportInto(c, e, today);
    if r.Err? {
      c.accounts, c.vouchers := accounts, vouchers;
    }
  }
}
