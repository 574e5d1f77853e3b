/** What an exported SIE file holds: its figures in terms of the books, and its lines. */
module SieExport {
  import opened Prelude
  import opened Ledger
  import opened Reports
  import opened Books
  import opened SieTransfer
  import Sie
  import Decimal

  // ---- The order of the vouchers ----

  lemma {:induction false} BeforeIsOrder(u: Voucher, v: Voucher, w: Voucher)
    ensures Before(u, v) || Before(v, u)
    ensures Before(u, v) && Before(v, w) ==> Before(u, w)
  {
    LessIsStrictOrder(u.series, v.series, w.series);
    LessIsStrictOrder(v.series, w.series, v.series);
    LessIsStrictOrder(u.series, w.series, u.series);
  }

  /** By date, then series, then number. */
  ghost predicate InOrder(vs: seq<Voucher>) {
    forall i, j :: 0 <= i < j < |vs| ==>
      || vs[i].date < vs[j].date
      || (vs[i].date == vs[j].date && Less(vs[i].series, vs[j].series))
      || (vs[i].date == vs[j].date && vs[i].series == vs[j].series && vs[i].number <= vs[j].number)
  }

  lemma {:induction false} InOrderCons(head: Voucher, vs: seq<Voucher>)
    requires InOrder(vs) && forall j :: 0 <= j < |vs| ==> Before(head, vs[j])
    ensures InOrder([head] + vs)
  {
    var all := [head] + vs;
    forall i, j | 0 <= i < j < |all| ensures Before(all[i], all[j]) && (i > 0 ==> all[i] == vs[i - 1]) {
      assert all[j] == vs[j - 1];
      assert i > 0 ==> all[i] == vs[i - 1];
      assert i > 0 ==> Before(vs[i - 1], vs[j - 1]);
    }
  }

  lemma {:induction false} InsertCounts(v: Voucher, vs: seq<Voucher>)
    ensures multiset(Insert(v, vs)) == multiset(vs) + multiset{v}
  {
    if vs != [] && !Before(v, vs[0]) {
      InsertCounts(v, vs[1..]);
      assert vs == [vs[0]] + vs[1..];
    }
  }

  lemma {:induction false} InsertInOrder(v: Voucher, vs: seq<Voucher>)
    requires InOrder(vs)
    ensures InOrder(Insert(v, vs))
    decreases |vs|, 0
  {
    if vs == [] {
      InOrderCons(v, []);
    } else {
      assert forall j :: 0 < j < |vs| ==> Before(vs[0], vs[j]);
      if Before(v, vs[0]) {
        forall j | 0 <= j < |vs| ensures Before(v, vs[j]) {
          BeforeIsOrder(v, vs[0], vs[j]);
        }
        InOrderCons(v, vs);
      } else {
        InsertLater(v, vs[0], vs[1..]);
      }
    }
  }

  lemma {:induction false} InsertLater(v: Voucher, head: Voucher, rest: seq<Voucher>)
    requires InOrder(rest) && !Before(v, head) && forall j :: 0 <= j < |rest| ==> Before(head, rest[j])
    ensures InOrder([head] + Insert(v, rest))
    decreases |rest|, 1
  {
    BeforeIsOrder(v, head, head);
    InsertInOrder(v, rest);
    InsertCounts(v, rest);
    var all := Insert(v, rest);
    forall j | 0 <= j < |all| ensures Before(head, all[j]) {
      assert all[j] in multiset(all);
      assert all[j] == v || all[j] in rest;
    }
    InOrderCons(head, all);
  }

  /** The listing is the posted vouchers, each once, in that order. */
  lemma {:induction false} ListingIs(vs: seq<Voucher>)
    ensures InOrder(Listing(vs)) && multiset(Listing(vs)) == multiset(vs)
  {
    if vs != [] {
      ListingIs(vs[1..]);
      InsertInOrder(vs[0], Listing(vs[1..]));
      InsertCounts(vs[0], Listing(vs[1..]));
      assert vs == [vs[0]] + vs[1..];
    }
  }

  // ---- The figures ----

  lemma {:induction false} ChosenAre(rows: seq<Row>, results: bool)
    ensures forall bal :: bal in Chosen(rows, results) <==>
              exists r :: r in rows && Wanted(r, results) && bal == Sie.Balance(r.account, r.net)
    ensures InAccountOrder(rows) ==>
              forall i, j :: 0 <= i < j < |Chosen(rows, results)| ==>
                Less(Chosen(rows, results)[i].account, Chosen(rows, results)[j].account)
  {
    if rows != [] {
      var n := |rows| - 1;
      ChosenAre(rows[..n], results);
      assert forall r :: r in rows <==> r in rows[..n] || r == rows[n];
      var last := if Wanted(rows[n], results) then [Sie.Balance(rows[n].account, rows[n].net)] else [];
      assert Chosen(rows, results) == Chosen(rows[..n], results) + last;
      if InAccountOrder(rows) {
        forall i | 0 <= i < |Chosen(rows[..n], results)|
          ensures Less(Chosen(rows[..n], results)[i].account, rows[n].account)
        {
          assert Chosen(rows[..n], results)[i] in Chosen(rows[..n], results);
          var r :| r in rows[..n] && Chosen(rows[..n], results)[i] == Sie.Balance(r.account, r.net);
          var k :| 0 <= k < n && rows[k] == r;
        }
      }
    }
  }

  /** Accounts of classes 1 and 2, or of classes 3 to 8. */
  predicate InSection(a: string, results: bool) {
    a != "" && if results then '3' <= a[0] <= '8' else '1' <= a[0] <= '2'
  }

  /** A section holds, in account order, exactly the accounts of its classes whose net is
      not zero, each at its net; or nothing if some account's net leaves int64. */
  ghost predicate SectionHolds(bals: seq<Sie.Balance>, vs: seq<Voucher>, p: Period, results: bool) {
    && (forall i, j :: 0 <= i < j < |bals| ==> Less(bals[i].account, bals[j].account))
    && (Query(vs, p).Some? ==>
          forall a, x {:trigger Sie.Balance(a, x)} ::
            Sie.Balance(a, x) in bals <==> InSection(a, results) && x != 0 && x == Net(vs, p, One(a)))
    && (Query(vs, p).None? ==> bals == [])
  }

  lemma {:induction false} RowHas(vs: seq<Voucher>, p: Period, a: string, x: int)
    ensures x != 0 ==> (Row(a, x) in TrialBalance(vs, p) <==> x == Net(vs, p, One(a)))
  {
    var rows := TrialBalance(vs, p);
    GroupedIsSorted(CoveredLines(vs, p));
    TrialBalanceNet(vs, p, One(a));
    RowAccountsAre(rows, a);
    if i :| 0 <= i < |rows| && rows[i].account == a {
      SortedRowIs(rows, i);
      if Row(a, x) in rows {
        var k :| 0 <= k < |rows| && rows[k] == Row(a, x);
        SortedRowIs(rows, k);
      }
      assert rows[i] == Row(a, Net(vs, p, One(a)));
    } else {
      NoRowNoNet(rows, a);
    }
  }

  lemma {:induction false} NoRowNoNet(rows: seq<Row>, a: string)
    requires forall i :: 0 <= i < |rows| ==> rows[i].account != a
    ensures RowsNet(rows, One(a)) == 0
  {
    if rows != [] {
      NoRowNoNet(rows[..|rows| - 1], a);
    }
  }

  lemma {:induction false} SectionIs(vs: seq<Voucher>, p: Period, results: bool)
    ensures SectionHolds(BalanceSection(TrialBalance(vs, p), results), vs, p, results)
  {
    var rows := TrialBalance(vs, p);
    GroupedIsSorted(CoveredLines(vs, p));
    ChosenAre(rows, results);
    forall a, x ensures Sie.Balance(a, x) in Chosen(rows, results) <==>
                          InSection(a, results) && x != 0 && x == Net(vs, p, One(a)) {
      RowHas(vs, p, a, x);
      ClassesAre(a);
      assert Wanted(Row(a, x), results) <==> InSection(a, results) && x != 0;
    }
  }

  /** The exported year is that of the first listed voucher, or of the export. Balances
      are carried in at the end of the year before and out at its own end, results are
      those of the year. */
  lemma {:induction false} ExportFigures(
    b: Book, listed: seq<Voucher>, chart: seq<Sie.Account>, name: string, orgNr: string, generated: Sie.Day, y: int)
    requires DatedInDays(listed) && y == (if listed == [] then generated else listed[0].date) / 10000
    ensures var e := ExportOf(b, listed, chart, name, orgNr, generated);
            && e.yearStart == y * 10000 + 101 && e.yearEnd == y * 10000 + 1231
            && e.companyName == name && e.orgNr == orgNr && e.generated == generated && e.accounts == chart
    ensures SectionHolds(ExportOf(b, listed, chart, name, orgNr, generated).opening,
                         b.vouchers, AsOf((y - 1) * 10000 + 1231), false)
    ensures SectionHolds(ExportOf(b, listed, chart, name, orgNr, generated).closing,
                         b.vouchers, AsOf(y * 10000 + 1231), false)
    ensures SectionHolds(ExportOf(b, listed, chart, name, orgNr, generated).results,
                         b.vouchers, Between(y * 10000 + 101, y * 10000 + 1231), true)
  {
    var e := ExportOf(b, listed, chart, name, orgNr, generated);
    assert ExportYear(listed, generated) == y;
    SectionAt(e.opening, b.vouchers, AsOf((y - 1) * 10000 + 1231), false);
    SectionAt(e.closing, b.vouchers, AsOf(y * 10000 + 1231), false);
    SectionAt(e.results, b.vouchers, Between(y * 10000 + 101, y * 10000 + 1231), true);
  }

  lemma {:induction false} SectionAt(bals: seq<Sie.Balance>, vs: seq<Voucher>, p: Period, results: bool)
    requires bals == BalanceSection(TrialBalance(vs, p), results)
    ensures SectionHolds(bals, vs, p, results)
  {
    SectionIs(vs, p, results);
  }

  /** Each voucher is exported under its own series, number, date and text, each line as
      debit less credit without a text. */
  lemma {:induction false} ExportVouchersAre(
    b: Book, listed: seq<Voucher>, chart: seq<Sie.Account>, name: string, orgNr: string, generated: Sie.Day, i: nat)
    requires DatedInDays(listed) && i < |listed|
    ensures var ws, v := ExportOf(b, listed, chart, name, orgNr, generated).vouchers, listed[i];
            && |ws| == |listed| && |ws[i].lines| == |v.lines|
            && (ws[i].series, ws[i].number, ws[i].text) == (v.series, v.number, v.text) && ws[i].date == v.date
            && forall j :: 0 <= j < |v.lines| ==>
                 var t := ws[i].lines[j];
                 t == Sie.Trans(v.lines[j].account, t.amount, "")
                   && (MIN_INT64 <= v.lines[j].debit - v.lines[j].credit <= MAX_INT64 ==>
                         t.amount == v.lines[j].debit - v.lines[j].credit)
  {
    var ws, v := ExportVouchers(listed), listed[i];
    assert Sie.IsDay(v.date);
    forall j | 0 <= j < |v.lines| ensures ws[i].lines[j] == ExportLine(v.lines[j]) {
    }
  }

  // ---- What is refused ----

  function SumOf(ts: seq<Sie.Trans>): int {
    if ts == [] then 0 else SumOf(ts[..|ts| - 1]) + ts[|ts| - 1].amount
  }

  lemma {:induction false} WrappedSumIs(ts: seq<Sie.Trans>)
    ensures Sie.WrappedSum(ts) == Wrap(SumOf(ts))
  {
    if ts != [] {
      var n := |ts| - 1;
      WrappedSumIs(ts[..n]);
      WrapAdd(SumOf(ts[..n]), ts[n].amount);
    }
  }

  /** No file is written exactly when the amounts of some voucher do not come to zero in
      int64, or when the code page lacks some character of the text. */
  lemma {:induction false} FileRefused(e: Sie.Export, page: Sie.CodePage)
    ensures var text := Sie.Text(Sie.Records(e));
            var odd := exists i :: 0 <= i < |e.vouchers| && Wrap(SumOf(e.vouchers[i].lines)) != 0;
            && (Sie.FileOf(e, page) == Err(Sie.DoesNotBalance) <==> odd)
            && (Sie.FileOf(e, page) == Err(Sie.NotEncodable) <==>
                  !odd && exists k :: 0 <= k < |text| && page.encode(text[k]).None?)
  {
    forall i | 0 <= i < |e.vouchers|
      ensures Sie.WrappedSum(e.vouchers[i].lines) == Wrap(SumOf(e.vouchers[i].lines))
    {
      WrappedSumIs(e.vouchers[i].lines);
    }
  }

  // ---- The lines of the file ----

  /** A text in quotes: quotes inside are escaped, control characters become blanks. */
  function InQuotes(s: string): string {
    "\"" + Inside(s) + "\""
  }

  function Inside(s: string): string {
    if s == "" then ""
    else
      var c := s[0];
      (if c as int < 0x20 || c as int == 0x7f then " " else if c == '"' then "\\\"" else [c]) + Inside(s[1..])
  }

  lemma {:induction false} QuoteIs(s: string)
    ensures Sie.Quote(s) == InQuotes(s)
  {
    EscapeIs(s);
  }

  lemma {:induction false} EscapeIs(s: string)
    ensures Sie.Escape(Sie.Clean(s)) == Inside(s)
  {
    if s != "" {
      EscapeIs(s[1..]);
      assert Sie.Clean(s)[1..] == Sie.Clean(s[1..]);
    }
  }

  /** An amount is written as a sign, kronor, a point and two digits of öre. */
  lemma {:induction false} AmountIs(neg: bool, k: nat, c: nat)
    requires c < 100 && k * 100 + c <= MAX_INT64 && (neg ==> k + c > 0)
    ensures Sie.FormatAmount(if neg then -(k * 100 + c) else k * 100 + c)
         == (if neg then "-" else "") + Decimal.Show(k) + "." + Decimal.Padded(c, 2)
  {
    var x: int := k * 100 + c;
    assert TruncDiv(x, 100) == k && TruncMod(x, 100) == c;
    TwoDigitsIs(c);
    var sign := if neg then "-" else "";
    assert sign + Decimal.ShowInt(k) + "." + Decimal.ShowTwo(c) == sign + Decimal.Show(k) + "." + Decimal.Padded(c, 2);
  }

  lemma {:induction false} TwoDigitsIs(c: nat)
    requires c < 100
    ensures Decimal.ShowTwo(c) == Decimal.Padded(c, 2)
  {
    assert Decimal.Padded(c, 2) == Decimal.Padded(c / 10, 1) + [Decimal.DigitOf(c % 10)];
    assert Decimal.Padded(c / 10, 1) == "" + [Decimal.DigitOf(c / 10)];
    if c >= 10 {
      assert Decimal.Show(c / 10) == [Decimal.DigitOf(c / 10)];
    }
  }

  // Each line as its words.

  function Heading(e: Sie.Export): seq<seq<string>> {
    [ ["#FLAGGA", "0"], ["#PROGRAM", "\"Pare\"", "\"0.1\""], ["#FORMAT", "PC8"], ["#GEN", Day(e.generated)],
      ["#SIETYP", "4"], ["#ORGNR", e.orgNr], ["#FNAMN", InQuotes(e.companyName)],
      ["#RAR", "0", Day(e.yearStart), Day(e.yearEnd)], ["#KPTYP", "EUBAS97"], ["#VALUTA", "SEK"] ]
  }

  /** Eight digits. */
  function Day(d: Sie.Day): string {
    assert Sie.IsDay(d);
    Decimal.Padded(d, 8)
  }

  function AccountLine(a: Sie.Account): seq<string> {
    ["#KONTO", a.number, InQuotes(a.name)]
  }

  function AccountLines(accounts: seq<Sie.Account>): seq<seq<string>> {
    seq(|accounts|, i requires 0 <= i < |accounts| => AccountLine(accounts[i]))
  }

  function BalanceLine(tag: string, b: Sie.Balance): seq<string> {
    [tag, "0", b.account, Sie.FormatAmount(b.amount)]
  }

  function BalanceLines(tag: string, bs: seq<Sie.Balance>): seq<seq<string>> {
    seq(|bs|, i requires 0 <= i < |bs| => BalanceLine(tag, bs[i]))
  }

  function TransLine(date: Sie.Day, t: Sie.Trans): seq<string> {
    ["#TRANS", t.account, "{}", Sie.FormatAmount(t.amount)]
    + if t.text == "" then [] else [Day(date), InQuotes(t.text)]
  }

  function TransLines(date: Sie.Day, ts: seq<Sie.Trans>): seq<seq<string>> {
    seq(|ts|, i requires 0 <= i < |ts| => TransLine(date, ts[i]))
  }

  function VoucherLines(v: Sie.Ver): seq<seq<string>> {
    [ ["#VER", if v.series == "" then "\"\"" else v.series, Decimal.ShowInt(v.number), Day(v.date), InQuotes(v.text)],
      ["{"] ] + TransLines(v.date, v.lines) + [["}"]]
  }

  function AllVoucherLines(vs: seq<Sie.Ver>): seq<seq<string>> {
    if vs == [] then [] else VoucherLines(vs[0]) + AllVoucherLines(vs[1..])
  }

  function FileLines(e: Sie.Export): seq<seq<string>> {
    Heading(e) + AccountLines(e.accounts)
    + BalanceLines("#IB", e.opening) + BalanceLines("#UB", e.closing) + BalanceLines("#RES", e.results)
    + AllVoucherLines(e.vouchers)
  }

  /** Words with a blank between them. */
  function Spaced(words: seq<string>): string {
    if words == [] then "" else if |words| == 1 then words[0] else words[0] + " " + Spaced(words[1..])
  }

  /** Each line ended by a line feed. */
  function Ended(lines: seq<seq<string>>): string {
    if lines == [] then "" else Spaced(lines[0]) + "\n" + Ended(lines[1..])
  }

  function WordsOf(fields: seq<Sie.Field>): seq<string> {
    seq(|fields|, i requires 0 <= i < |fields| => Sie.Written(fields[i]))
  }

  function AllWords(records: seq<Sie.Record>): seq<seq<string>> {
    seq(|records|, i requires 0 <= i < |records| => WordsOf(records[i]))
  }

  lemma {:induction false} LineIs(fields: Sie.Record)
    ensures Sie.Line(fields) == Spaced(WordsOf(fields))
  {
    if |fields| > 1 {
      LineIs(fields[1..]);
      assert WordsOf(fields)[1..] == WordsOf(fields[1..]);
    }
  }

  lemma {:induction false} TextIs(records: seq<Sie.Record>)
    ensures Sie.Text(records) == Ended(AllWords(records))
  {
    if records != [] {
      LineIs(records[0]);
      TextIs(records[1..]);
      assert AllWords(records)[1..] == AllWords(records[1..]);
    }
  }

  lemma {:induction false} WordsAppend(xs: seq<Sie.Record>, ys: seq<Sie.Record>)
    ensures AllWords(xs + ys) == AllWords(xs) + AllWords(ys)
  {
  }

  lemma {:induction false} WordsCons(first: Sie.Record, rest: seq<Sie.Record>)
    ensures AllWords([first] + rest) == [WordsOf(first)] + AllWords(rest)
  {
  }

  lemma {:induction false} PlainQuote(s: string)
    requires forall i :: 0 <= i < |s| ==> s[i] as int >= 0x20 && s[i] as int != 0x7f && s[i] != '"'
    ensures Sie.Quote(s) == "\"" + s + "\""
  {
    QuoteIs(s);
    PlainInside(s);
  }

  lemma {:induction false} ProgramWords()
    ensures WordsOf([Sie.Bare("#PROGRAM"), Sie.QuotedText("Pare"), Sie.QuotedText("0.1")])
         == ["#PROGRAM", "\"Pare\"", "\"0.1\""]
  {
    PlainQuote("Pare");
    PlainQuote("0.1");
    assert "\"" + "Pare" + "\"" == "\"Pare\"" && "\"" + "0.1" + "\"" == "\"0.1\"";
  }

  lemma {:induction false} TwoWords(tag: string, word: string)
    ensures WordsOf([Sie.Bare(tag), Sie.Bare(word)]) == [tag, word]
  {
  }

  lemma {:induction false} PreambleWords(e: Sie.Export)
    ensures AllWords(Sie.Preamble(e)) == Heading(e)[..5]
  {
    ProgramWords();
    TwoWords("#FLAGGA", "0");
    TwoWords("#FORMAT", "PC8");
    TwoWords("#GEN", Sie.Ymd(e.generated));
    TwoWords("#SIETYP", "4");
  }

  lemma {:induction false} PlainInside(s: string)
    requires forall i :: 0 <= i < |s| ==> s[i] as int >= 0x20 && s[i] as int != 0x7f && s[i] != '"'
    ensures Inside(s) == s
  {
    if s != "" {
      PlainInside(s[1..]);
      assert [s[0]] + s[1..] == s;
    }
  }

  lemma {:induction false} IdentityWords(e: Sie.Export)
    ensures AllWords(Sie.Identity(e)) == Heading(e)[5..8]
  {
    QuoteIs(e.companyName);
    var p, h := AllWords(Sie.Identity(e)), Heading(e);
    assert p[0] == h[5] && p[1] == h[6] && p[2] == h[7];
  }

  lemma {:induction false} ConventionWords(e: Sie.Export)
    ensures AllWords(Sie.Conventions()) == Heading(e)[8..]
  {
    var p, h := AllWords(Sie.Conventions()), Heading(e);
    assert p[0] == h[8] && p[1] == h[9];
  }

  lemma {:induction false} HeadingIs(e: Sie.Export)
    ensures AllWords(Sie.Header(e)) == Heading(e)
  {
    PreambleWords(e);
    IdentityWords(e);
    ConventionWords(e);
    WordsAppend(Sie.Preamble(e), Sie.Identity(e));
    WordsAppend(Sie.Preamble(e) + Sie.Identity(e), Sie.Conventions());
    var h := Heading(e);
    assert h == h[..5] + h[5..8] + h[8..];
  }

  lemma {:induction false} AccountsAre(accounts: seq<Sie.Account>)
    ensures AllWords(Sie.AccountRecords(accounts)) == AccountLines(accounts)
  {
    if accounts != [] {
      var a := accounts[0];
      AccountsAre(accounts[1..]);
      QuoteIs(a.name);
      assert WordsOf(Sie.AccountRecord(a)) == AccountLine(a);
      WordsCons(Sie.AccountRecord(a), Sie.AccountRecords(accounts[1..]));
      AccountCons(accounts);
    }
  }

  lemma {:induction false} AccountCons(accounts: seq<Sie.Account>)
    requires accounts != []
    ensures AccountLines(accounts) == [AccountLine(accounts[0])] + AccountLines(accounts[1..])
  {
  }

  lemma {:induction false} BalanceWords(tag: string, b: Sie.Balance)
    ensures WordsOf(Sie.BalanceRecord(tag, b)) == BalanceLine(tag, b)
  {
  }

  lemma {:induction false} BalancesAre(tag: string, bs: seq<Sie.Balance>)
    ensures AllWords(Sie.BalanceRecords(tag, bs)) == BalanceLines(tag, bs)
  {
    if bs != [] {
      BalancesAre(tag, bs[1..]);
      BalanceWords(tag, bs[0]);
      WordsCons(Sie.BalanceRecord(tag, bs[0]), Sie.BalanceRecords(tag, bs[1..]));
      BalanceCons(tag, bs);
    }
  }

  lemma {:induction false} BalanceCons(tag: string, bs: seq<Sie.Balance>)
    requires bs != []
    ensures BalanceLines(tag, bs) == [BalanceLine(tag, bs[0])] + BalanceLines(tag, bs[1..])
  {
  }

  lemma {:induction false} TransIs(date: Sie.Day, t: Sie.Trans)
    ensures WordsOf(Sie.TransRecord(date, t)) == TransLine(date, t)
  {
    QuoteIs(t.text);
  }

  lemma {:induction false} TransCons(date: Sie.Day, ts: seq<Sie.Trans>)
    requires ts != []
    ensures TransLines(date, ts) == [TransLine(date, ts[0])] + TransLines(date, ts[1..])
  {
  }

  lemma {:induction false} TransAre(date: Sie.Day, ts: seq<Sie.Trans>)
    ensures AllWords(Sie.TransRecords(date, ts)) == TransLines(date, ts)
  {
    if ts != [] {
      TransAre(date, ts[1..]);
      TransIs(date, ts[0]);
      WordsCons(Sie.TransRecord(date, ts[0]), Sie.TransRecords(date, ts[1..]));
      TransCons(date, ts);
    }
  }

  lemma {:induction false} OpenedWords(v: Sie.Ver)
    ensures WordsOf(Sie.VerRecord(v)) == VoucherLines(v)[0]
    ensures WordsOf([Sie.Bare("{")]) == ["{"] && WordsOf([Sie.Bare("}")]) == ["}"]
  {
    QuoteIs(v.text);
  }

  lemma {:induction false} VoucherIs(v: Sie.Ver)
    ensures AllWords(Sie.VerRecords(v)) == VoucherLines(v)
  {
    var first: seq<Sie.Record> := [Sie.VerRecord(v), [Sie.Bare("{")]];
    var last: seq<Sie.Record> := [[Sie.Bare("}")]];
    var moves := Sie.TransRecords(v.date, v.lines);
    OpenedWords(v);
    TransAre(v.date, v.lines);
    assert AllWords(first) == [VoucherLines(v)[0], ["{"]] && AllWords(last) == [["}"]];
    WordsAppend(first, moves);
    WordsAppend(first + moves, last);
  }

  lemma {:induction false} VouchersAre(vs: seq<Sie.Ver>)
    ensures AllWords(Sie.AllVerRecords(vs)) == AllVoucherLines(vs)
  {
    if vs != [] {
      VoucherIs(vs[0]);
      VouchersAre(vs[1..]);
      WordsAppend(Sie.VerRecords(vs[0]), Sie.AllVerRecords(vs[1..]));
    }
  }

  /** The text of the file, line by line and word by word. */
  lemma {:induction false} FileTextIs(e: Sie.Export)
    ensures Sie.Text(Sie.Records(e)) == Ended(FileLines(e))
  {
    var h, a := Sie.Header(e), Sie.AccountRecords(e.accounts);
    var ib, ub := Sie.BalanceRecords("#IB", e.opening), Sie.BalanceRecords("#UB", e.closing);
    var res, vs := Sie.BalanceRecords("#RES", e.results), Sie.AllVerRecords(e.vouchers);
    TextIs(Sie.Records(e));
    HeadingIs(e);
    AccountsAre(e.accounts);
    BalancesAre("#IB", e.opening);
    BalancesAre("#UB", e.closing);
    BalancesAre("#RES", e.results);
    VouchersAre(e.vouchers);
    WordsAppend(h, a);
    WordsAppend(h + a, ib);
    WordsAppend(h + a + ib, ub);
    WordsAppend(h + a + ib + ub, res);
    WordsAppend(h + a + ib + ub + res, vs);
  }
}
