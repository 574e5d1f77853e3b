/** Export, write, read and import: the books of an empty company become the same
    books, as far as any trial balance can tell. */
module SieTransferProof {
  import opened Prelude
  import opened Ledger
  import opened Reports
  import opened Books
  import opened Runs
  import opened SieTransfer
  import Sie
  import SieRoundTrip

  // ---- The listing holds the posted vouchers, earliest first ----

  lemma {:induction false} InsertHas(v: Voucher, vs: seq<Voucher>)
    ensures forall x :: x in Insert(v, vs) <==> x == v || x in vs
  {
    if vs != [] && !Before(v, vs[0]) {
      InsertHas(v, vs[1..]);
    }
  }

  lemma {:induction false} ListingHas(vs: seq<Voucher>)
    ensures forall x :: x in Listing(vs) <==> x in vs
  {
    if vs != [] {
      ListingHas(vs[1..]);
      InsertHas(vs[0], Listing(vs[1..]));
    }
  }

  predicate StartsFirst(vs: seq<Voucher>) {
    forall x :: x in vs ==> vs[0].date <= x.date
  }

  lemma {:induction false} ListingStartsFirst(vs: seq<Voucher>)
    ensures StartsFirst(Listing(vs))
  {
    if vs != [] {
      ListingStartsFirst(vs[1..]);
      InsertHas(vs[0], Listing(vs[1..]));
    }
  }

  lemma {:induction false} NetCons(v: Voucher, vs: seq<Voucher>, p: Period, w: Accounts)
    ensures Net([v] + vs, p, w) == Share(v, p, w) + Net(vs, p, w)
  {
    NetAppend([v], vs, p, w);
    assert [v][..0] == [];
  }

  lemma {:induction false} InsertNet(v: Voucher, vs: seq<Voucher>, p: Period, w: Accounts)
    ensures Net(Insert(v, vs), p, w) == Share(v, p, w) + Net(vs, p, w)
  {
    if vs == [] || Before(v, vs[0]) {
      NetCons(v, vs, p, w);
    } else {
      InsertNet(v, vs[1..], p, w);
      NetCons(vs[0], Insert(v, vs[1..]), p, w);
      NetCons(vs[0], vs[1..], p, w);
      assert vs == [vs[0]] + vs[1..];
    }
  }

  lemma {:induction false} ListingNet(vs: seq<Voucher>, p: Period, w: Accounts)
    ensures Net(Listing(vs), p, w) == Net(vs, p, w)
  {
    if vs != [] {
      ListingNet(vs[1..], p, w);
      InsertNet(vs[0], Listing(vs[1..]), p, w);
      NetCons(vs[0], vs[1..], p, w);
      assert vs == [vs[0]] + vs[1..];
    }
  }

  // ---- The order of a voucher's lines does not matter ----

  lemma {:induction false} RelinedNet(vs: seq<Voucher>, us: seq<Voucher>, p: Period, w: Accounts)
    requires Relined(vs, us)
    ensures Net(us, p, w) == Net(vs, p, w)
  {
    if vs != [] {
      var n := |vs| - 1;
      RelinedNet(vs[..n], us[..n], p, w);
      OrderOfLinesIrrelevant(us[n].lines, vs[n].lines, w);
    }
  }

  /** The listed vouchers of a book, their lines as the query returned them. */
  ghost predicate ListedAs(b: Book, listed: seq<Voucher>) {
    Relined(Listing(b.vouchers), listed)
  }

  lemma {:induction false} ListedNet(b: Book, listed: seq<Voucher>, p: Period, w: Accounts)
    requires ListedAs(b, listed)
    ensures Net(listed, p, w) == Net(b.vouchers, p, w)
  {
    RelinedNet(Listing(b.vouchers), listed, p, w);
    ListingNet(b.vouchers, p, w);
  }

  // ---- Lines survive the trip, except for their VAT code ----

  function WithoutVat(lines: seq<Line>): seq<Line> {
    seq(|lines|, i requires 0 <= i < |lines| => lines[i].(vatCode := ""))
  }

  lemma {:induction false} WithoutVatSame(lines: seq<Line>, w: Accounts)
    ensures NetOf(WithoutVat(lines), w) == NetOf(lines, w)
    ensures TotalDebit(WithoutVat(lines)) == TotalDebit(lines) && TotalCredit(WithoutVat(lines)) == TotalCredit(lines)
  {
    if lines != [] {
      var n := |lines| - 1;
      WithoutVatSame(lines[..n], w);
      assert WithoutVat(lines)[..n] == WithoutVat(lines[..n]);
    }
  }

  lemma {:induction false} LinesReturn(lines: seq<Line>, w: Accounts)
    requires Postable(lines)
    ensures ImportLines(ExportLines(lines)) == WithoutVat(lines)
    ensures Postable(WithoutVat(lines)) && NetOf(WithoutVat(lines), w) == NetOf(lines, w)
    ensures forall i :: 0 <= i < |lines| ==> Fits(ExportLines(lines)[i].amount)
  {
    forall i | 0 <= i < |lines| ensures Fits(lines[i].debit) && Fits(lines[i].credit) {
      LinesWithinTotal(lines, i);
    }
    WithoutVatSame(lines, w);
    var back := WithoutVat(lines);
    assert forall i :: 0 <= i < |lines| ==> back[i] == lines[i].(vatCode := "");
    assert forall i :: 0 <= i < |lines| ==> OneSided(lines[i]) && OneSided(back[i]);
  }

  lemma {:induction false} ExportSums(lines: seq<Line>)
    requires Postable(lines)
    ensures Sie.WrappedSum(ExportLines(lines)) == 0
  {
    ExportSumIs(lines);
    NetOfAll(lines);
  }

  lemma {:induction false} ExportSumIs(lines: seq<Line>)
    ensures Sie.WrappedSum(ExportLines(lines)) == Wrap(NetOf(lines, All))
  {
    if lines != [] {
      var n := |lines| - 1;
      ExportSumIs(lines[..n]);
      assert ExportLines(lines)[..n] == ExportLines(lines[..n]);
      WrapAdd(NetOf(lines[..n], All), Minus64(lines[n].debit, lines[n].credit));
      WrapAdd(lines[n].debit - lines[n].credit, NetOf(lines[..n], All));
    }
  }

  // ---- Replaying postable entries always succeeds ----

  ghost predicate Replayable(e: Entry, accounts: map<string, string>) {
    Postable(e.lines) && KnownAccounts(e.lines, accounts)
  }

  function EntryShare(e: Entry, p: Period, w: Accounts): int {
    Share(Voucher(e.series, 0, e.date, e.text, e.lines), p, w)
  }

  function EntriesNet(entries: seq<Entry>, p: Period, w: Accounts): int {
    if entries == [] then 0 else EntryShare(entries[0], p, w) + EntriesNet(entries[1..], p, w)
  }

  lemma {:induction false} ReplayOne(b: Book, e: Entry) returns (b1: Book)
    requires WellKept(b) && b.lock.None? && Replayable(e, b.accounts)
    ensures Post(b, e.series, e.date, e.text, e.lines) == Ok(b1)
    ensures WellKept(b1) && b1.lock.None? && b1.accounts == b.accounts
    ensures b1.vouchers == b.vouchers
            + [Voucher(e.series, CountSeries(b.vouchers, e.series) + 1, e.date, e.text, e.lines)]
  {
    PostKeepsBooks(b, e.series, e.date, e.text, e.lines);
    b1 := Post(b, e.series, e.date, e.text, e.lines).value;
  }

  lemma {:induction false} ReplaySucceeds(b: Book, entries: seq<Entry>, p: Period, w: Accounts)
    requires WellKept(b) && b.lock.None? && forall i :: 0 <= i < |entries| ==> Replayable(entries[i], b.accounts)
    ensures PostAll(b, entries).Ok?
    ensures Net(PostAll(b, entries).value.vouchers, p, w) == Net(b.vouchers, p, w) + EntriesNet(entries, p, w)
    decreases |entries|
  {
    if entries != [] {
      var b1 := ReplayOne(b, entries[0]);
      var rest := entries[1..];
      assert PostAll(b, entries) == PostAll(b1, rest);
      forall i | 0 <= i < |rest| ensures Replayable(rest[i], b1.accounts) {
        assert rest[i] == entries[i + 1];
      }
      ReplaySucceeds(b1, rest, p, w);
    }
  }

  // ---- What an export of well-kept books contains ----

  /** The unquoted names in the file are bare words, and numbers fit. */
  ghost predicate Portable(b: Book, chart: seq<Sie.Account>, orgNr: string) {
    && WellKept(b) && Lists(chart, b.accounts)
    && (orgNr == "" || SieRoundTrip.IsBare(orgNr))
    && (forall a :: a in b.accounts ==> SieRoundTrip.IsBare(a))
    && (forall v :: v in b.vouchers ==>
        Sie.IsDay(v.date) && (v.series == "" || SieRoundTrip.IsBare(v.series)) && Fits(v.number))
  }

  /** A voucher that can be exported and replayed over these accounts. */
  ghost predicate Exportable(v: Voucher, accounts: map<string, string>) {
    && Sie.IsDay(v.date) && (v.series == "" || SieRoundTrip.IsBare(v.series)) && Fits(v.number)
    && Postable(v.lines) && KnownAccounts(v.lines, accounts)
  }

  lemma {:induction false} PortableListing(b: Book, listed: seq<Voucher>, chart: seq<Sie.Account>, orgNr: string)
    requires Portable(b, chart, orgNr) && ListedAs(b, listed)
    ensures DatedInDays(listed)
    ensures forall i :: 0 <= i < |listed| ==> Exportable(listed[i], b.accounts)
  {
    var vs := Listing(b.vouchers);
    ListingHas(b.vouchers);
    forall i | 0 <= i < |listed| ensures Exportable(listed[i], b.accounts) {
      assert vs[i] in vs && listed[i] == vs[i].(lines := listed[i].lines);
      OrderOfLinesIrrelevant(listed[i].lines, vs[i].lines, All);
    }
  }

  /** No voucher is earlier than the exported year, so nothing is carried in. */
  lemma {:induction false} NothingCarriedIn(b: Book, listed: seq<Voucher>, generated: Sie.Day)
    requires ListedAs(b, listed) && DatedInDays(listed)
    ensures BalanceSection(TrialBalance(b.vouchers, AsOf(EveOf(ExportYear(listed, generated)))), false) == []
  {
    var vs := Listing(b.vouchers);
    var y := ExportYear(listed, generated);
    ListingHas(b.vouchers);
    ListingStartsFirst(b.vouchers);
    forall v | v in b.vouchers ensures v.date > EveOf(y) {
      assert v in vs && vs[0].date <= v.date;
      assert listed[0] == vs[0].(lines := listed[0].lines) && Sie.IsDay(listed[0].date);
    }
    NoneCovered(b.vouchers, EveOf(y));
  }

  lemma {:induction false} NoneCovered(vs: seq<Voucher>, d: int)
    requires forall v :: v in vs ==> v.date > d
    ensures CoveredLines(vs, AsOf(d)) == []
  {
    if vs != [] {
      NoneCovered(vs[..|vs| - 1], d);
    }
  }

  lemma {:induction false} ChosenSafe(rows: seq<Row>, results: bool, accounts: map<string, string>)
    requires RowsFit(rows) && forall r :: r in rows ==> r.account in accounts
    requires forall a :: a in accounts ==> SieRoundTrip.IsBare(a)
    ensures SieRoundTrip.SafeBalances(Chosen(rows, results))
  {
    if rows != [] {
      ChosenSafe(rows[..|rows| - 1], results, accounts);
    }
  }

  lemma {:induction false} SectionSafe(b: Book, chart: seq<Sie.Account>, orgNr: string, p: Period, results: bool)
    requires Portable(b, chart, orgNr)
    ensures SieRoundTrip.SafeBalances(BalanceSection(TrialBalance(b.vouchers, p), results))
  {
    CoveredKnown(b.vouchers, p, b.accounts);
    GroupedKnown(CoveredLines(b.vouchers, p), b.accounts);
    if RowsFit(TrialBalance(b.vouchers, p)) {
      ChosenSafe(TrialBalance(b.vouchers, p), results, b.accounts);
    }
  }

  lemma {:induction false} VoucherSafe(v: Voucher, accounts: map<string, string>)
    requires Exportable(v, accounts) && forall a :: a in accounts ==> SieRoundTrip.IsBare(a)
    ensures SieRoundTrip.SafeVoucher(ExportVoucher(v)) && Sie.WrappedSum(ExportVoucher(v).lines) == 0
  {
    LinesReturn(v.lines, All);
    ExportSums(v.lines);
    forall i | 0 <= i < |v.lines| ensures SieRoundTrip.IsBare(v.lines[i].account) {
      assert v.lines[i] in v.lines;
    }
  }

  /** An export of well-kept books is always accepted by the writer. */
  lemma {:induction false} ExportIsSafe(
    b: Book, listed: seq<Voucher>, chart: seq<Sie.Account>, name: string, orgNr: string, generated: Sie.Day)
    requires Portable(b, chart, orgNr) && ListedAs(b, listed)
    ensures DatedInDays(listed)
    ensures var e := ExportOf(b, listed, chart, name, orgNr, generated);
            SieRoundTrip.Safe(e) && Sie.InBalance(e) && e.opening == []
  {
    PortableListing(b, listed, chart, orgNr);
    var e := ExportOf(b, listed, chart, name, orgNr, generated);
    var y := ExportYear(listed, generated);
    NothingCarriedIn(b, listed, generated);
    SectionSafe(b, chart, orgNr, AsOf(LastDay(y)), false);
    SectionSafe(b, chart, orgNr, Between(FirstDay(y), LastDay(y)), true);
    forall i | 0 <= i < |listed|
      ensures SieRoundTrip.SafeVoucher(e.vouchers[i]) && Sie.WrappedSum(e.vouchers[i].lines) == 0
    {
      VoucherSafe(listed[i], b.accounts);
    }
  }

  // ---- The transfer ----

  /** Periods that do not exclude the series an empty series is imported under. */
  predicate Comparable(p: Period) {
    p.BetweenExcluding? ==> p.series != "" && p.series != "A"
  }

  function Reread(vs: seq<Voucher>): seq<Sie.Ver>
    requires DatedInDays(vs)
  {
    SieRoundTrip.RereadVouchers(ExportVouchers(vs))
  }

  lemma {:induction false} EntryReturns(v: Voucher, accounts: map<string, string>, p: Period, w: Accounts)
    requires Sie.IsDay(v.date) && Postable(v.lines) && KnownAccounts(v.lines, accounts) && Comparable(p)
    ensures var e := ImportEntry(SieRoundTrip.RereadVoucher(ExportVoucher(v)));
            Replayable(e, accounts) && EntryShare(e, p, w) == Share(v, p, w)
  {
    LinesReturn(v.lines, w);
    var t := SieRoundTrip.RereadVoucher(ExportVoucher(v));
    assert SieRoundTrip.Reread("") == "";
    assert t.lines == ExportLines(v.lines);
    forall l | l in WithoutVat(v.lines) ensures l.account in accounts {
      var i :| 0 <= i < |v.lines| && WithoutVat(v.lines)[i] == l;
      assert v.lines[i] in v.lines;
    }
  }

  function Returned(vs: seq<Voucher>): seq<Entry>
    requires DatedInDays(vs)
  {
    ImportEntries(Reread(vs))
  }

  lemma {:induction false} EntriesReplayable(vs: seq<Voucher>, accounts: map<string, string>)
    requires DatedInDays(vs)
    requires forall i :: 0 <= i < |vs| ==> Postable(vs[i].lines) && KnownAccounts(vs[i].lines, accounts)
    ensures forall i :: 0 <= i < |Returned(vs)| ==> Replayable(Returned(vs)[i], accounts)
  {
    forall i | 0 <= i < |vs| ensures Replayable(Returned(vs)[i], accounts) {
      EntryReturns(vs[i], accounts, Always, All);
    }
  }

  lemma {:induction false} SharesAdd(entries: seq<Entry>, vs: seq<Voucher>, p: Period, w: Accounts)
    requires |entries| == |vs| && forall i :: 0 <= i < |vs| ==> EntryShare(entries[i], p, w) == Share(vs[i], p, w)
    ensures EntriesNet(entries, p, w) == Net(vs, p, w)
  {
    if vs != [] {
      SharesAdd(entries[1..], vs[1..], p, w);
      NetCons(vs[0], vs[1..], p, w);
      assert vs == [vs[0]] + vs[1..];
    }
  }

  lemma {:induction false} EntriesReturn(vs: seq<Voucher>, accounts: map<string, string>, p: Period, w: Accounts)
    requires DatedInDays(vs) && Comparable(p)
    requires forall i :: 0 <= i < |vs| ==> Postable(vs[i].lines) && KnownAccounts(vs[i].lines, accounts)
    ensures EntriesNet(Returned(vs), p, w) == Net(vs, p, w)
  {
    forall i | 0 <= i < |vs| ensures EntryShare(Returned(vs)[i], p, w) == Share(vs[i], p, w) {
      EntryReturns(vs[i], accounts, p, w);
    }
    SharesAdd(Returned(vs), vs, p, w);
  }

  /** Importing what is read back from the written export of any well-kept books into
      an empty, unlocked company always succeeds, and every trial balance of the
      result agrees with the original on every selection of accounts, in whatever
      order the lines of a voucher were exported. */
  lemma {:induction false} TransferPreservesBalances(
    b: Book, listed: seq<Voucher>, chart: seq<Sie.Account>, name: string, orgNr: string, generated: Sie.Day,
    target: Book, today: int, p: Period, w: Accounts)
    requires Portable(b, chart, orgNr) && ListedAs(b, listed) && Comparable(p)
    requires WellKept(target) && target.vouchers == [] && target.lock.None?
    ensures DatedInDays(listed)
    ensures var e := ExportOf(b, listed, chart, name, orgNr, generated);
            var imported := Import(target, Sie.ParseText(Sie.Text(Sie.Records(e))), today);
            && Sie.InBalance(e) && imported.Ok?
            && Net(imported.value.vouchers, p, w) == Net(b.vouchers, p, w)
  {
    ExportIsSafe(b, listed, chart, name, orgNr, generated);
    var e := ExportOf(b, listed, chart, name, orgNr, generated);
    SieRoundTrip.RoundTrip(e);
    var back := SieRoundTrip.RereadExport(e);
    PortableListing(b, listed, chart, orgNr);
    WithAccountsGrows(target, ChartPairs(back.accounts));
    var seeded := WithAccounts(target, ChartPairs(back.accounts));
    ChartCovers(chart, b.accounts, seeded.accounts);
    forall i | 0 <= i < |listed| ensures KnownAccounts(listed[i].lines, seeded.accounts) {
      assert Exportable(listed[i], b.accounts);
    }
    EntriesReplayable(listed, seeded.accounts);
    EntriesReturn(listed, seeded.accounts, p, w);
    assert back.vouchers == Reread(listed);
    ReplaySucceeds(seeded, ImportEntries(back.vouchers), p, w);
    ListedNet(b, listed, p, w);
  }

  lemma {:induction false} ChartCovers(
    chart: seq<Sie.Account>, accounts: map<string, string>, seeded: map<string, string>)
    requires Lists(chart, accounts)
    requires var pairs := ChartPairs(SieRoundTrip.RereadAccounts(chart));
             forall i :: 0 <= i < |pairs| ==> pairs[i].0 in seeded
    ensures forall a :: a in accounts ==> a in seeded
  {
    var pairs := ChartPairs(SieRoundTrip.RereadAccounts(chart));
    forall a | a in accounts ensures a in seeded {
      var i :| 0 <= i < |chart| && chart[i].number == a;
      assert pairs[i].0 == a;
    }
  }

  // ---- The rows of every trial balance ----

  /** The trial balance for p has a row for account a because of v. */
  predicate Touches(v: Voucher, p: Period, a: string) {
    Covers(p, v) && exists j :: 0 <= j < |v.lines| && v.lines[j].account == a
  }

  ghost predicate Touched(vs: seq<Voucher>, p: Period, a: string) {
    exists v :: v in vs && Touches(v, p, a)
  }

  lemma {:induction false} LineAccountsAppend(xs: seq<Line>, ys: seq<Line>)
    ensures LineAccounts(xs + ys) == LineAccounts(xs) + LineAccounts(ys)
  {
    if ys == [] {
      assert xs + ys == xs;
    } else {
      LineAccountsAppend(xs, ys[..|ys| - 1]);
      assert (xs + ys)[..|xs + ys| - 1] == xs + ys[..|ys| - 1];
    }
  }

  lemma {:induction false} LineAccountsAre(lines: seq<Line>, a: string)
    ensures a in LineAccounts(lines) <==> exists j :: 0 <= j < |lines| && lines[j].account == a
  {
    if lines != [] {
      var n := |lines| - 1;
      LineAccountsAre(lines[..n], a);
      if a in LineAccounts(lines[..n]) {
        var j :| 0 <= j < n && lines[..n][j].account == a;
        assert lines[j].account == a;
      }
      if j :| 0 <= j < |lines| && lines[j].account == a {
        assert j < n ==> lines[..n][j].account == a;
      }
    }
  }

  lemma {:induction false} TouchedSnoc(vs: seq<Voucher>, p: Period, a: string)
    requires vs != []
    ensures Touched(vs, p, a) <==> Touched(vs[..|vs| - 1], p, a) || Touches(vs[|vs| - 1], p, a)
  {
    var n := |vs| - 1;
    if x :| x in vs[..n] && Touches(x, p, a) {
      assert x in vs;
    }
    if x :| x in vs && Touches(x, p, a) {
      assert x in vs[..n] || x == vs[n];
    }
  }

  lemma {:induction false} CoveredAccounts(vs: seq<Voucher>, p: Period, a: string)
    ensures a in LineAccounts(CoveredLines(vs, p)) <==> Touched(vs, p, a)
  {
    if vs != [] {
      var n := |vs| - 1;
      var v := vs[n];
      CoveredAccounts(vs[..n], p, a);
      LineAccountsAppend(CoveredLines(vs[..n], p), if Covers(p, v) then v.lines else []);
      LineAccountsAre(v.lines, a);
      TouchedSnoc(vs, p, a);
    }
  }

  predicate Carries(v: Voucher, e: Entry) {
    v.series == e.series && v.date == e.date && v.text == e.text && v.lines == e.lines
  }

  lemma {:induction false} PostAllCarries(b: Book, entries: seq<Entry>)
    requires PostAll(b, entries).Ok?
    ensures var vs := PostAll(b, entries).value.vouchers;
            && |vs| == |b.vouchers| + |entries| && b.vouchers <= vs
            && forall i :: 0 <= i < |entries| ==> Carries(vs[|b.vouchers| + i], entries[i])
    decreases |entries|
  {
    if entries != [] {
      var e := entries[0];
      var b1 := Post(b, e.series, e.date, e.text, e.lines).value;
      assert PostAll(b, entries) == PostAll(b1, entries[1..]);
      PostAllCarries(b1, entries[1..]);
      var vs := PostAll(b, entries).value.vouchers;
      assert vs[|b.vouchers|] == b1.vouchers[|b.vouchers|];
      forall i | 0 <= i < |entries| ensures Carries(vs[|b.vouchers| + i], entries[i]) {
        assert i > 0 ==> entries[i] == entries[1..][i - 1];
      }
    }
  }

  lemma {:induction false} ReturnTouches(v: Voucher, v': Voucher, p: Period, a: string)
    requires Sie.IsDay(v.date) && Postable(v.lines) && Comparable(p)
    requires Carries(v', ImportEntry(SieRoundTrip.RereadVoucher(ExportVoucher(v))))
    ensures Touches(v', p, a) <==> Touches(v, p, a)
  {
    LinesReturn(v.lines, All);
    assert SieRoundTrip.Reread("") == "";
    assert SieRoundTrip.RereadVoucher(ExportVoucher(v)).lines == ExportLines(v.lines);
    assert v'.lines == WithoutVat(v.lines);
    assert forall j :: 0 <= j < |v.lines| ==> v'.lines[j].account == v.lines[j].account;
  }

  lemma {:induction false} ReturnedTouch(listed: seq<Voucher>, vs: seq<Voucher>, p: Period, a: string)
    requires DatedInDays(listed) && Comparable(p) && |vs| == |listed|
    requires forall i :: 0 <= i < |listed| ==> Postable(listed[i].lines) && Carries(vs[i], Returned(listed)[i])
    ensures Touched(vs, p, a) <==> Touched(listed, p, a)
  {
    forall i | 0 <= i < |vs| ensures Touches(vs[i], p, a) <==> Touches(listed[i], p, a) {
      ReturnTouches(listed[i], vs[i], p, a);
    }
    if v :| v in vs && Touches(v, p, a) {
      var i :| 0 <= i < |vs| && vs[i] == v;
      assert listed[i] in listed;
    }
    if v :| v in listed && Touches(v, p, a) {
      var i :| 0 <= i < |listed| && listed[i] == v;
      assert vs[i] in vs;
    }
  }

  lemma {:induction false} SameRows(xs: seq<Voucher>, ys: seq<Voucher>, p: Period)
    requires forall a :: Touched(xs, p, a) <==> Touched(ys, p, a)
    requires forall a :: Net(xs, p, One(a)) == Net(ys, p, One(a))
    ensures TrialBalance(xs, p) == TrialBalance(ys, p)
  {
    GroupedIsSorted(CoveredLines(xs, p));
    GroupedIsSorted(CoveredLines(ys, p));
    forall a ensures a in RowAccounts(TrialBalance(xs, p)) <==> a in RowAccounts(TrialBalance(ys, p)) {
      CoveredAccounts(xs, p, a);
      CoveredAccounts(ys, p, a);
    }
    forall a ensures RowsNet(TrialBalance(xs, p), One(a)) == RowsNet(TrialBalance(ys, p), One(a)) {
      TrialBalanceNet(xs, p, One(a));
      TrialBalanceNet(ys, p, One(a));
    }
    RowsDetermined(TrialBalance(xs, p), TrialBalance(ys, p));
  }

  lemma {:induction false} ListedTouched(b: Book, listed: seq<Voucher>, p: Period, a: string)
    requires ListedAs(b, listed)
    ensures Touched(listed, p, a) <==> Touched(b.vouchers, p, a)
  {
    var vs := Listing(b.vouchers);
    ListingHas(b.vouchers);
    forall i | 0 <= i < |vs| ensures Touches(listed[i], p, a) <==> Touches(vs[i], p, a) {
      assert listed[i] == vs[i].(lines := listed[i].lines);
      RelinedTouches(vs[i], listed[i].lines, p, a);
    }
    if v :| v in vs && Touches(v, p, a) {
      var i :| 0 <= i < |vs| && vs[i] == v;
      assert listed[i] in listed;
    }
    if v :| v in listed && Touches(v, p, a) {
      var i :| 0 <= i < |listed| && listed[i] == v;
      assert vs[i] in vs;
    }
  }

  lemma {:induction false} RelinedTouches(v: Voucher, lines: seq<Line>, p: Period, a: string)
    requires multiset(lines) == multiset(v.lines)
    ensures Touches(v.(lines := lines), p, a) <==> Touches(v, p, a)
  {
    OrderOfLinesIrrelevant(lines, v.lines, All);
    if j :| 0 <= j < |lines| && lines[j].account == a {
      assert lines[j] in v.lines;
    }
    if j :| 0 <= j < |v.lines| && v.lines[j].account == a {
      assert v.lines[j] in lines;
    }
  }

  /** The imported vouchers are the listed ones, entry by entry. */
  lemma {:induction false} ImportedCarries(
    b: Book, listed: seq<Voucher>, chart: seq<Sie.Account>, name: string, orgNr: string, generated: Sie.Day,
    target: Book, today: int)
    requires Portable(b, chart, orgNr) && ListedAs(b, listed)
    requires WellKept(target) && target.vouchers == [] && target.lock.None?
    ensures DatedInDays(listed)
    ensures var e := ExportOf(b, listed, chart, name, orgNr, generated);
            var imported := Import(target, Sie.ParseText(Sie.Text(Sie.Records(e))), today);
            && imported.Ok? && |imported.value.vouchers| == |listed|
            && forall i :: 0 <= i < |listed| ==> Carries(imported.value.vouchers[i], Returned(listed)[i])
  {
    TransferPreservesBalances(b, listed, chart, name, orgNr, generated, target, today, Always, All);
    var e := ExportOf(b, listed, chart, name, orgNr, generated);
    ExportIsSafe(b, listed, chart, name, orgNr, generated);
    SieRoundTrip.RoundTrip(e);
    var back := SieRoundTrip.RereadExport(e);
    assert back.vouchers == Reread(listed);
    WithAccountsGrows(target, ChartPairs(back.accounts));
    PostAllCarries(WithAccounts(target, ChartPairs(back.accounts)), ImportEntries(back.vouchers));
  }

  /** Voucher by voucher the books return, in the order of the listing: the date, the
      lines without their VAT codes, the series or "A", and the text as it is read back
      or "Import". */
  lemma {:induction false} VouchersReturn(
    b: Book, listed: seq<Voucher>, chart: seq<Sie.Account>, name: string, orgNr: string, generated: Sie.Day,
    target: Book, today: int, i: nat)
    requires Portable(b, chart, orgNr) && ListedAs(b, listed) && i < |listed|
    requires WellKept(target) && target.vouchers == [] && target.lock.None?
    ensures DatedInDays(listed)
    ensures var e := ExportOf(b, listed, chart, name, orgNr, generated);
            var imported := Import(target, Sie.ParseText(Sie.Text(Sie.Records(e))), today);
            && imported.Ok? && |imported.value.vouchers| == |listed|
            && var v, w := imported.value.vouchers[i], listed[i];
               && v.date == w.date && v.series == (if w.series == "" then "A" else w.series)
               && v.text == (if w.text == "" then "Import" else SieRoundTrip.Reread(w.text))
               && v.lines == WithoutVat(w.lines)
  {
    ImportedCarries(b, listed, chart, name, orgNr, generated, target, today);
    PortableListing(b, listed, chart, orgNr);
    VoucherReturns(listed[i]);
  }

  lemma {:induction false} VoucherReturns(w: Voucher)
    requires Sie.IsDay(w.date) && Postable(w.lines)
    ensures ImportEntry(SieRoundTrip.RereadVoucher(ExportVoucher(w)))
         == Entry(if w.series == "" then "A" else w.series, w.date,
                  if w.text == "" then "Import" else SieRoundTrip.Reread(w.text), WithoutVat(w.lines))
  {
    LinesReturn(w.lines, All);
    assert SieRoundTrip.Reread("") == "";
    SieRoundTrip.RereadExactIff(w.text);
    assert SieRoundTrip.RereadVoucher(ExportVoucher(w)).lines == ExportLines(w.lines);
  }

  /** Row by row, every trial balance of the imported books is the original's: total,
      as of any date, and between any dates. */
  lemma {:induction false} TransferPreservesTrialBalances(
    b: Book, listed: seq<Voucher>, chart: seq<Sie.Account>, name: string, orgNr: string, generated: Sie.Day,
    target: Book, today: int, p: Period)
    requires Portable(b, chart, orgNr) && ListedAs(b, listed) && Comparable(p)
    requires WellKept(target) && target.vouchers == [] && target.lock.None?
    ensures DatedInDays(listed)
    ensures var e := ExportOf(b, listed, chart, name, orgNr, generated);
            var imported := Import(target, Sie.ParseText(Sie.Text(Sie.Records(e))), today);
            imported.Ok? && TrialBalance(imported.value.vouchers, p) == TrialBalance(b.vouchers, p)
  {
    ImportedCarries(b, listed, chart, name, orgNr, generated, target, today);
    PortableListing(b, listed, chart, orgNr);
    var e := ExportOf(b, listed, chart, name, orgNr, generated);
    var vs := Import(target, Sie.ParseText(Sie.Text(Sie.Records(e))), today).value.vouchers;
    forall a ensures Touched(vs, p, a) <==> Touched(b.vouchers, p, a) {
      ReturnedTouch(listed, vs, p, a);
      ListedTouched(b, listed, p, a);
    }
    forall a ensures Net(vs, p, One(a)) == Net(b.vouchers, p, One(a)) {
      TransferPreservesBalances(b, listed, chart, name, orgNr, generated, target, today, p, One(a));
    }
    SameRows(vs, b.vouchers, p);
  }

  /** The same through the bytes of the file. The writer refuses exactly when some
      character is outside the code page; and a file without an over-long line brings
      every trial balance back. */
  lemma {:induction false} FileKeepsTrialBalances(
    b: Book, listed: seq<Voucher>, chart: seq<Sie.Account>, name: string, orgNr: string, generated: Sie.Day,
    page: Sie.CodePage, target: Book, today: int, p: Period)
    requires Portable(b, chart, orgNr) && ListedAs(b, listed) && Comparable(p) && page.Inverts()
    requires WellKept(target) && target.vouchers == [] && target.lock.None?
    ensures DatedInDays(listed)
    ensures var e := ExportOf(b, listed, chart, name, orgNr, generated);
            var file := Sie.FileOf(e, page);
            && (file.Ok? <==> page.Covers(Sie.Text(Sie.Records(e))))
            && (file.Ok? && SieRoundTrip.ShortLines(e) ==>
                  var read := Sie.ReadFile(file.value, page);
                  var imported := Import(target, read.e, today);
                  !read.tooLong && imported.Ok?
                    && TrialBalance(imported.value.vouchers, p) == TrialBalance(b.vouchers, p))
  {
    ExportIsSafe(b, listed, chart, name, orgNr, generated);
    var e := ExportOf(b, listed, chart, name, orgNr, generated);
    SieRoundTrip.FileRoundTrip(e, page);
    SieRoundTrip.RoundTrip(e);
    TransferPreservesTrialBalances(b, listed, chart, name, orgNr, generated, target, today, p);
  }
}
