/** What an imported SIE file puts in the books: the opening balances as one voucher,
    then the file's vouchers, exactly when all of it is a valid double entry. */
module SieImport {
  import opened Prelude
  import opened Ledger
  import opened Reports
  import opened Books
  import opened Runs
  import opened SieTransfer
  import Sie

  // ---- Signed amounts and what they come to ----

  /** A signed amount on an account: debit positive, credit negative. */
  datatype Figure = Figure(account: string, amount: int)

  /** The opening balances that are not zero. */
  function Carried(bs: seq<Sie.Balance>): seq<Figure> {
    if bs == [] then []
    else
      var b := bs[|bs| - 1];
      Carried(bs[..|bs| - 1]) + if b.amount == 0 then [] else [Figure(b.account, b.amount)]
  }

  function Moved(ts: seq<Sie.Trans>): seq<Figure> {
    seq(|ts|, i requires 0 <= i < |ts| => Figure(ts[i].account, ts[i].amount))
  }

  /** The sum of the amounts, of those on one account, and of the positive ones. */
  function Sum(fs: seq<Figure>): int {
    if fs == [] then 0 else Sum(fs[..|fs| - 1]) + fs[|fs| - 1].amount
  }

  function On(fs: seq<Figure>, a: string): int {
    if fs == [] then 0
    else On(fs[..|fs| - 1], a) + if fs[|fs| - 1].account == a then fs[|fs| - 1].amount else 0
  }

  function Raised(fs: seq<Figure>): int {
    if fs == [] then 0
    else Raised(fs[..|fs| - 1]) + if fs[|fs| - 1].amount > 0 then fs[|fs| - 1].amount else 0
  }

  predicate Entered(f: Figure) {
    f.account != "" && f.amount != 0 && f.amount != MIN_INT64
  }

  /** Two amounts or more, none zero and none MinInt64, that come to zero and whose
      positive ones stay in int64. */
  predicate InBalance(fs: seq<Figure>) {
    && |fs| >= 2 && (forall i :: 0 <= i < |fs| ==> Entered(fs[i]))
    && Sum(fs) == 0 && Raised(fs) <= MAX_INT64
  }

  ghost predicate FiguresFit(fs: seq<Figure>) {
    forall i :: 0 <= i < |fs| ==> Fits(fs[i].amount)
  }

  // ---- As lines ----

  function AsLines(fs: seq<Figure>): seq<Line> {
    seq(|fs|, i requires 0 <= i < |fs| => SignedLine(fs[i].account, fs[i].amount))
  }

  lemma {:induction false} OpeningAsLines(bs: seq<Sie.Balance>)
    ensures OpeningLines(bs) == AsLines(Carried(bs))
  {
    if bs != [] {
      var n := |bs| - 1;
      OpeningAsLines(bs[..n]);
      var b := bs[n];
      if b.amount != 0 {
        assert AsLines(Carried(bs[..n]) + [Figure(b.account, b.amount)])
            == AsLines(Carried(bs[..n])) + [SignedLine(b.account, b.amount)];
      } else {
        assert Carried(bs[..n]) + [] == Carried(bs[..n]) && OpeningLines(bs[..n]) + [] == OpeningLines(bs[..n]);
      }
    }
  }

  lemma {:induction false} MovesAsLines(ts: seq<Sie.Trans>)
    ensures ImportLines(ts) == AsLines(Moved(ts))
  {
  }

  /** The line of an amount: the amount on its side, and nothing on the other. Only
      MinInt64 stays negative. */
  lemma {:induction false} SignedLineIs(f: Figure)
    requires Fits(f.amount)
    ensures var l := SignedLine(f.account, f.amount);
            && l.account == f.account && l.vatCode == "" && (OneSided(l) <==> Entered(f))
            && (f.amount > 0 ==> l.debit == f.amount && l.credit == 0)
            && (MIN_INT64 < f.amount < 0 ==> l.debit == 0 && l.credit == -f.amount)
  {
  }

  lemma {:induction false} LinesOfFigures(fs: seq<Figure>, a: string)
    requires FiguresFit(fs) && forall i :: 0 <= i < |fs| ==> Entered(fs[i])
    ensures NetOf(AsLines(fs), One(a)) == On(fs, a)
    ensures TotalDebit(AsLines(fs)) == Raised(fs)
    ensures TotalDebit(AsLines(fs)) - TotalCredit(AsLines(fs)) == Sum(fs)
  {
    if fs != [] {
      var n := |fs| - 1;
      LinesOfFigures(fs[..n], a);
      assert AsLines(fs)[..n] == AsLines(fs[..n]);
      assert Entered(fs[n]);
      SignedLineIs(fs[n]);
    }
  }

  lemma {:induction false} PostableFigures(fs: seq<Figure>)
    requires FiguresFit(fs)
    ensures Postable(AsLines(fs)) <==> InBalance(fs)
  {
    var ls := AsLines(fs);
    forall i | 0 <= i < |fs| ensures OneSided(ls[i]) <==> Entered(fs[i]) {
      SignedLineIs(fs[i]);
    }
    if forall i :: 0 <= i < |fs| ==> Entered(fs[i]) {
      LinesOfFigures(fs, "");
    }
    if Postable(ls) {
      forall i | 0 <= i < |fs| ensures Entered(fs[i]) {
        assert OneSided(ls[i]);
      }
    }
  }

  // ---- What makes a file acceptable ----

  /** In the company's own chart or in the file's. */
  ghost predicate Charted(b: Book, e: Sie.Export, a: string) {
    a in b.accounts || exists i :: 0 <= i < |e.accounts| && e.accounts[i].number == a
  }

  ghost predicate AllCharted(b: Book, e: Sie.Export, fs: seq<Figure>) {
    forall i :: 0 <= i < |fs| ==> Charted(b, e, fs[i].account)
  }

  /** The year's first day, or today if the file gives none. */
  function FirstDayOf(e: Sie.Export, today: int): int {
    if e.yearStart == 1_01_01 then today else e.yearStart
  }

  /** The entry is in balance, on charted accounts and dated after the lock. */
  ghost predicate Acceptable(b: Book, e: Sie.Export, fs: seq<Figure>, date: int) {
    InBalance(fs) && AllCharted(b, e, fs) && (b.lock.None? || date > b.lock.value)
  }

  ghost predicate Opens(b: Book, e: Sie.Export, today: int) {
    Carried(e.opening) == [] || Acceptable(b, e, Carried(e.opening), FirstDayOf(e, today))
  }

  ghost predicate VouchersBook(b: Book, e: Sie.Export) {
    forall i :: 0 <= i < |e.vouchers| ==> Acceptable(b, e, Moved(e.vouchers[i].lines), e.vouchers[i].date)
  }

  /** The chart afterwards: the file's accounts, each under the last name it gives, and
      the company's others. */
  ghost predicate ChartTaken(before: map<string, string>, accounts: seq<Sie.Account>, after: map<string, string>) {
    && (forall a :: a in after <==> a in before || exists i :: 0 <= i < |accounts| && accounts[i].number == a)
    && (forall i :: 0 <= i < |accounts| && accounts[i].number !in Numbers(accounts[i + 1..]) ==>
          accounts[i].number in after && after[accounts[i].number] == accounts[i].name)
    && (forall a :: a in before && a !in Numbers(accounts) ==> a in after && after[a] == before[a])
  }

  function Numbers(accounts: seq<Sie.Account>): set<string> {
    set i | 0 <= i < |accounts| :: accounts[i].number
  }

  lemma {:induction false} Seeded(b: Book, accounts: seq<Sie.Account>)
    ensures var b' := WithAccounts(b, ChartPairs(accounts));
            b' == b.(accounts := b'.accounts) && ChartTaken(b.accounts, accounts, b'.accounts)
    decreases |accounts|
  {
    if accounts != [] {
      var first, rest := accounts[0], accounts[1..];
      var b1 := b.(accounts := b.accounts[first.number := first.name]);
      Seeded(b1, rest);
      assert ChartPairs(accounts)[1..] == ChartPairs(rest);
      var b' := WithAccounts(b, ChartPairs(accounts));
      assert accounts == [first] + rest;
      forall a ensures a in b'.accounts <==>
                         a in b.accounts || exists i :: 0 <= i < |accounts| && accounts[i].number == a {
        if i :| 0 <= i < |accounts| && accounts[i].number == a {
          assert i > 0 ==> rest[i - 1].number == a;
        }
        if i :| 0 <= i < |rest| && rest[i].number == a {
          assert accounts[i + 1].number == a;
        }
      }
      forall i | 0 <= i < |accounts| && accounts[i].number !in Numbers(accounts[i + 1..])
        ensures accounts[i].number in b'.accounts && b'.accounts[accounts[i].number] == accounts[i].name
      {
        if i > 0 {
          assert accounts[i] == rest[i - 1] && accounts[i + 1..] == rest[i..];
        }
      }
      forall a | a in b.accounts && a !in Numbers(accounts)
        ensures a in b'.accounts && b'.accounts[a] == b.accounts[a]
      {
        assert accounts[0].number in Numbers(accounts);
        NumbersRest(accounts);
      }
    }
  }

  lemma {:induction false} NumbersRest(accounts: seq<Sie.Account>)
    requires accounts != []
    ensures Numbers(accounts[1..]) <= Numbers(accounts)
  {
    forall a | a in Numbers(accounts[1..]) ensures a in Numbers(accounts) {
      var i :| 0 <= i < |accounts[1..]| && accounts[1..][i].number == a;
      assert accounts[i + 1].number == a;
    }
  }

  // ---- Posting a list of entries ----

  ghost predicate Posts(b: Book, e: Entry) {
    Postable(e.lines) && KnownAccounts(e.lines, b.accounts) && (b.lock.None? || e.date > b.lock.value)
  }

  /** The entry as the last voucher of the books. */
  ghost predicate BookedLast(vs: seq<Voucher>, i: nat, e: Entry)
    requires i < |vs|
  {
    vs[i] == Voucher(e.series, CountSeries(vs[..i], e.series) + 1, e.date, e.text, e.lines)
  }

  /** The entries follow the vouchers of b, numbered on in their series. */
  ghost predicate Extends(b: Book, entries: seq<Entry>, b': Book) {
    && WellKept(b') && b' == b.(vouchers := b'.vouchers) && b.vouchers <= b'.vouchers
    && |b'.vouchers| == |b.vouchers| + |entries|
    && forall i :: 0 <= i < |entries| ==> BookedLast(b'.vouchers, |b.vouchers| + i, entries[i])
  }

  lemma {:induction false} ExtendsCons(b: Book, e: Entry, rest: seq<Entry>, b1: Book, b2: Book)
    requires b1 == b.(vouchers := b1.vouchers) && Extends(b1, rest, b2)
    requires b1.vouchers
          == b.vouchers + [Voucher(e.series, CountSeries(b.vouchers, e.series) + 1, e.date, e.text, e.lines)]
    ensures Extends(b, [e] + rest, b2)
  {
    var n, vs := |b.vouchers|, b2.vouchers;
    assert vs[n] == b1.vouchers[n] && vs[..n] == b1.vouchers[..n] == b.vouchers;
    BookedFrom(vs, n, e, rest);
  }

  lemma {:induction false} BookedFrom(vs: seq<Voucher>, n: nat, e: Entry, rest: seq<Entry>)
    requires n + 1 + |rest| == |vs| && BookedLast(vs, n, e)
    requires forall i :: 0 <= i < |rest| ==> BookedLast(vs, n + 1 + i, rest[i])
    ensures forall i :: 0 <= i < |[e] + rest| ==> BookedLast(vs, n + i, ([e] + rest)[i])
  {
    forall i | 0 <= i < |[e] + rest| ensures BookedLast(vs, n + i, ([e] + rest)[i]) {
      if i > 0 {
        assert BookedLast(vs, n + 1 + (i - 1), rest[i - 1]);
      }
    }
  }

  ghost predicate AllPost(b: Book, entries: seq<Entry>) {
    forall i :: 0 <= i < |entries| ==> Posts(b, entries[i])
  }

  /** A list of entries is posted exactly when each can be, in the order given. */
  lemma {:induction false} PostAllIff(b: Book, entries: seq<Entry>)
    requires WellKept(b)
    ensures PostAll(b, entries).Ok? <==> AllPost(b, entries)
    ensures PostAll(b, entries).Ok? ==> Extends(b, entries, PostAll(b, entries).value)
    decreases |entries|
  {
    if entries != [] {
      var e, rest := entries[0], entries[1..];
      PostOne(b, e);
      assert [e] + rest == entries;
      if Posts(b, e) {
        var b1 := Post(b, e.series, e.date, e.text, e.lines).value;
        PostAllIff(b1, rest);
        FirstAndRest(b, b1, e, rest);
        if PostAll(b1, rest).Ok? {
          ExtendsCons(b, e, rest, b1, PostAll(b1, rest).value);
        }
      }
    }
  }

  lemma {:induction false} PostOne(b: Book, e: Entry)
    requires WellKept(b)
    ensures var r := Post(b, e.series, e.date, e.text, e.lines);
            && (r.Ok? <==> Posts(b, e))
            && (r.Ok? ==>
                 && WellKept(r.value) && r.value == b.(vouchers := r.value.vouchers)
                 && r.value.vouchers
                    == b.vouchers + [Voucher(e.series, CountSeries(b.vouchers, e.series) + 1, e.date, e.text, e.lines)])
  {
    PostKeepsBooks(b, e.series, e.date, e.text, e.lines);
  }

  lemma {:induction false} FirstAndRest(b: Book, b1: Book, e: Entry, rest: seq<Entry>)
    requires b1 == b.(vouchers := b1.vouchers)
    ensures AllPost(b, [e] + rest) <==> Posts(b, e) && AllPost(b1, rest)
  {
    var entries := [e] + rest;
    assert entries[0] == e && forall i :: 0 <= i < |rest| ==> entries[i + 1] == rest[i];
    assert forall x :: Posts(b1, x) <==> Posts(b, x);
  }

  // ---- The import ----

  lemma {:induction false} Charts(b: Book, e: Sie.Export, fs: seq<Figure>)
    ensures KnownAccounts(AsLines(fs), WithAccounts(b, ChartPairs(e.accounts)).accounts) <==> AllCharted(b, e, fs)
  {
    Seeded(b, e.accounts);
    var after := WithAccounts(b, ChartPairs(e.accounts)).accounts;
    forall i | 0 <= i < |fs| ensures AsLines(fs)[i].account == fs[i].account && AsLines(fs)[i] in AsLines(fs) {
    }
    assert forall a :: a in after <==> Charted(b, e, a);
    forall l | l in AsLines(fs) && AllCharted(b, e, fs) ensures l.account in after {
      var i :| 0 <= i < |fs| && AsLines(fs)[i] == l;
    }
  }

  lemma {:induction false} AcceptableIs(b: Book, e: Sie.Export, fs: seq<Figure>, entry: Entry)
    requires FiguresFit(fs) && entry.lines == AsLines(fs)
    ensures Posts(WithAccounts(b, ChartPairs(e.accounts)), entry) <==> Acceptable(b, e, fs, entry.date)
  {
    PostableFigures(fs);
    Charts(b, e, fs);
    Seeded(b, e.accounts);
  }

  /** How many vouchers the opening balances take: one, or none when all are zero. */
  function OpeningCount(e: Sie.Export): nat {
    if Carried(e.opening) == [] then 0 else 1
  }

  /** A line per amount, in order: a positive one debited, a negative one credited. */
  ghost predicate LinesAre(lines: seq<Line>, fs: seq<Figure>) {
    && |lines| == |fs|
    && forall j :: 0 <= j < |fs| ==>
         lines[j] == Line(fs[j].account, if fs[j].amount > 0 then fs[j].amount else 0,
                          if fs[j].amount < 0 then -fs[j].amount else 0, "")
  }

  lemma {:induction false} EnteredLines(fs: seq<Figure>)
    requires FiguresFit(fs) && InBalance(fs)
    ensures LinesAre(AsLines(fs), fs)
  {
    forall j | 0 <= j < |fs| ensures Entered(fs[j]) && OneSided(AsLines(fs)[j]) {
      SignedLineIs(fs[j]);
    }
  }

  ghost predicate OpeningVoucher(v: Voucher, e: Sie.Export, today: int) {
    && v == Voucher("IB", 1, FirstDayOf(e, today), "Ingående balans (import)", v.lines)
    && LinesAre(v.lines, Carried(e.opening))
    && forall a {:trigger On(Carried(e.opening), a)} :: NetOf(v.lines, One(a)) == On(Carried(e.opening), a)
  }

  /** The voucher of the file: its date, its lines in order, and its series and text
      unless they are empty. */
  ghost predicate FileVoucher(v: Voucher, w: Sie.Ver) {
    && v.series == (if w.series == "" then "A" else w.series)
    && v.date == w.date && v.text == (if w.text == "" then "Import" else w.text)
    && LinesAre(v.lines, Moved(w.lines))
  }

  function EntryOf(e: Sie.Export, today: int): Entry {
    Entry("IB", FirstDayOf(e, today), "Ingående balans (import)", OpeningLines(e.opening))
  }

  lemma {:induction false} CarriedFits(bs: seq<Sie.Balance>)
    requires forall i :: 0 <= i < |bs| ==> Fits(bs[i].amount)
    ensures FiguresFit(Carried(bs))
  {
    if bs != [] {
      CarriedFits(bs[..|bs| - 1]);
    }
  }

  /** Opening the seeded books. */
  lemma {:induction false} OpeningPosts(b: Book, e: Sie.Export, today: int)
    requires AmountsFit(e) && b.vouchers == []
    ensures var r := WithOpening(WithAccounts(b, ChartPairs(e.accounts)), e, today);
            && (r.Ok? <==> Opens(b, e, today))
            && (r.Ok? ==>
                 && WellKept(r.value) && |r.value.vouchers| == OpeningCount(e) && r.value.lock == b.lock
                 && r.value == WithAccounts(b, ChartPairs(e.accounts)).(vouchers := r.value.vouchers)
                 && (OpeningCount(e) == 1 ==> OpeningVoucher(r.value.vouchers[0], e, today)))
  {
    var seeded, fs := WithAccounts(b, ChartPairs(e.accounts)), Carried(e.opening);
    Seeded(b, e.accounts);
    assert WellKept(seeded) && seeded.vouchers == [];
    CarriedFits(e.opening);
    OpeningAsLines(e.opening);
    AcceptableIs(b, e, fs, EntryOf(e, today));
    var o := EntryOf(e, today);
    PostKeepsBooks(seeded, o.series, o.date, o.text, o.lines);
    if fs != [] && Opens(b, e, today) {
      EnteredLines(fs);
      forall a {:trigger On(fs, a)} ensures NetOf(o.lines, One(a)) == On(fs, a) {
        LinesOfFigures(fs, a);
      }
    }
  }

  lemma {:induction false} FileEntry(b: Book, e: Sie.Export, i: nat)
    requires AmountsFit(e) && i < |e.vouchers|
    ensures var w, entry := e.vouchers[i], ImportEntries(e.vouchers)[i];
            && (Posts(WithAccounts(b, ChartPairs(e.accounts)), entry) <==> Acceptable(b, e, Moved(w.lines), w.date))
            && (InBalance(Moved(w.lines)) ==>
                  forall n :: FileVoucher(Voucher(entry.series, n, entry.date, entry.text, entry.lines), w))
  {
    var w, entry := e.vouchers[i], ImportEntries(e.vouchers)[i];
    MovesAsLines(w.lines);
    AcceptableIs(b, e, Moved(w.lines), entry);
    if InBalance(Moved(w.lines)) {
      EnteredLines(Moved(w.lines));
    }
  }

  /** A file is imported exactly when the company has no voucher, its opening balances
      are all zero or make an acceptable entry on the year's first day, and each of its
      vouchers makes one. */
  lemma {:induction false} ImportedIff(b: Book, e: Sie.Export, today: int)
    requires AmountsFit(e)
    ensures Import(b, e, today).Ok? <==> b.vouchers == [] && Opens(b, e, today) && VouchersBook(b, e)
    ensures Import(b, e, today) == Err(LedgerNotEmpty) <==> b.vouchers != []
    ensures Import(b, e, today).Err? && Import(b, e, today).error.Opening? <==>
              b.vouchers == [] && !Opens(b, e, today)
  {
    if b.vouchers == [] {
      OpeningPosts(b, e, today);
      var r := WithOpening(WithAccounts(b, ChartPairs(e.accounts)), e, today);
      if r.Ok? {
        PostsFile(b, e, r.value);
      }
    }
  }

  ghost predicate FileBooked(e: Sie.Export, b1: Book, b2: Book) {
    && WellKept(b2) && b2 == b1.(vouchers := b2.vouchers) && b1.vouchers <= b2.vouchers
    && |b2.vouchers| == |b1.vouchers| + |e.vouchers|
    && forall i :: 0 <= i < |e.vouchers| ==> FileVoucher(b2.vouchers[|b1.vouchers| + i], e.vouchers[i])
  }

  /** The vouchers of the file, posted on the opened books. */
  lemma {:induction false} PostsFile(b: Book, e: Sie.Export, b1: Book)
    requires AmountsFit(e) && WellKept(b1)
    requires b1 == WithAccounts(b, ChartPairs(e.accounts)).(vouchers := b1.vouchers)
    ensures PostAll(b1, ImportEntries(e.vouchers)).Ok? <==> VouchersBook(b, e)
    ensures PostAll(b1, ImportEntries(e.vouchers)).Ok? ==>
              FileBooked(e, b1, PostAll(b1, ImportEntries(e.vouchers)).value)
  {
    var entries := ImportEntries(e.vouchers);
    PostAllIff(b1, entries);
    forall i | 0 <= i < |entries|
      ensures Posts(b1, entries[i]) <==> Acceptable(b, e, Moved(e.vouchers[i].lines), e.vouchers[i].date)
    {
      FileEntry(b, e, i);
    }
    if PostAll(b1, entries).Ok? {
      var vs := PostAll(b1, entries).value.vouchers;
      forall i | 0 <= i < |entries| ensures FileVoucher(vs[|b1.vouchers| + i], e.vouchers[i]) {
        FileEntry(b, e, i);
        assert Posts(b1, entries[i]);
        assert BookedLast(vs, |b1.vouchers| + i, entries[i]);
      }
    }
  }

  /** The opening voucher if there is one, and then the file's vouchers in their order. */
  ghost predicate VouchersHeld(vs: seq<Voucher>, e: Sie.Export, today: int) {
    && |vs| == OpeningCount(e) + |e.vouchers|
    && (OpeningCount(e) == 1 ==> OpeningVoucher(vs[0], e, today))
    && forall i :: 0 <= i < |e.vouchers| ==> FileVoucher(vs[OpeningCount(e) + i], e.vouchers[i])
  }

  /** These vouchers, numbered from 1 in each series, over the merged chart. */
  ghost predicate Holds(b: Book, e: Sie.Export, today: int, b': Book) {
    && WellKept(b') && b'.lock == b.lock && b'.years == b.years
    && ChartTaken(b.accounts, e.accounts, b'.accounts) && VouchersHeld(b'.vouchers, e, today)
  }

  /** An accepted import leaves exactly what the file holds. */
  lemma {:induction false} ImportedBooks(b: Book, e: Sie.Export, today: int)
    requires AmountsFit(e) && Import(b, e, today).Ok?
    ensures Holds(b, e, today, Import(b, e, today).value)
  {
    OpeningPosts(b, e, today);
    Seeded(b, e.accounts);
    var b1 := WithOpening(WithAccounts(b, ChartPairs(e.accounts)), e, today).value;
    PostsFile(b, e, b1);
    FileFollows(b, e, today, b1, Import(b, e, today).value);
  }

  lemma {:induction false} FileFollows(b: Book, e: Sie.Export, today: int, b1: Book, b2: Book)
    requires ChartTaken(b.accounts, e.accounts, b1.accounts) && b1.lock == b.lock && b1.years == b.years
    requires |b1.vouchers| == OpeningCount(e) && (OpeningCount(e) == 1 ==> OpeningVoucher(b1.vouchers[0], e, today))
    requires FileBooked(e, b1, b2)
    ensures Holds(b, e, today, b2)
  {
    assert OpeningCount(e) == 1 ==> b2.vouchers[0] == b1.vouchers[0];
  }

  // ---- What each account stands at ----

  /** The amounts on an account in the vouchers dated through a day. */
  function Through(ws: seq<Sie.Ver>, day: int, a: string): int {
    if ws == [] then 0
    else
      var w := ws[|ws| - 1];
      Through(ws[..|ws| - 1], day, a) + if w.date <= day then On(Moved(w.lines), a) else 0
  }

  lemma {:induction false} FileVoucherNet(v: Voucher, w: Sie.Ver, a: string)
    requires FileVoucher(v, w)
    ensures NetOf(v.lines, One(a)) == On(Moved(w.lines), a)
  {
    SameNet(v.lines, Moved(w.lines), a);
  }

  lemma {:induction false} SameNet(lines: seq<Line>, fs: seq<Figure>, a: string)
    requires LinesAre(lines, fs)
    ensures NetOf(lines, One(a)) == On(fs, a)
  {
    if fs != [] {
      SameNet(lines[..|fs| - 1], fs[..|fs| - 1], a);
    }
  }

  lemma {:induction false} FileNet(vs: seq<Voucher>, ws: seq<Sie.Ver>, day: int, a: string)
    requires |vs| == |ws| && forall i :: 0 <= i < |ws| ==> FileVoucher(vs[i], ws[i])
    ensures Net(vs, AsOf(day), One(a)) == Through(ws, day, a)
  {
    if ws != [] {
      var n := |ws| - 1;
      FileNet(vs[..n], ws[..n], day, a);
      FileVoucherNet(vs[n], ws[n], a);
    }
  }

  /** On every day each account of the imported books stands at its opening balance, from
      the opening day on, plus the file's amounts through that day. */
  lemma {:induction false} ImportedBalances(b: Book, e: Sie.Export, today: int, day: int, a: string)
    requires AmountsFit(e) && Import(b, e, today).Ok?
    ensures Net(Import(b, e, today).value.vouchers, AsOf(day), One(a))
            == (if FirstDayOf(e, today) <= day then On(Carried(e.opening), a) else 0) + Through(e.vouchers, day, a)
  {
    ImportedBooks(b, e, today);
    HeldBalances(Import(b, e, today).value.vouchers, e, today, day, a);
  }

  lemma {:induction false} HeldBalances(vs: seq<Voucher>, e: Sie.Export, today: int, day: int, a: string)
    requires VouchersHeld(vs, e, today)
    ensures Net(vs, AsOf(day), One(a))
            == (if FirstDayOf(e, today) <= day then On(Carried(e.opening), a) else 0) + Through(e.vouchers, day, a)
  {
    var k := OpeningCount(e);
    var xs, ys := vs[..k], vs[k..];
    assert vs == xs + ys;
    forall i | 0 <= i < |e.vouchers| ensures FileVoucher(ys[i], e.vouchers[i]) {
      assert ys[i] == vs[k + i];
    }
    PartBalances(xs, ys, e, today, day, a);
  }

  lemma {:induction false} PartBalances(
    xs: seq<Voucher>, ys: seq<Voucher>, e: Sie.Export, today: int, day: int, a: string)
    requires |xs| == OpeningCount(e) && |ys| == |e.vouchers|
    requires OpeningCount(e) == 1 ==> OpeningVoucher(xs[0], e, today)
    requires forall i :: 0 <= i < |e.vouchers| ==> FileVoucher(ys[i], e.vouchers[i])
    ensures Net(xs + ys, AsOf(day), One(a))
            == (if FirstDayOf(e, today) <= day then On(Carried(e.opening), a) else 0) + Through(e.vouchers, day, a)
  {
    NetAppend(xs, ys, AsOf(day), One(a));
    FileNet(ys, e.vouchers, day, a);
    if OpeningCount(e) == 1 {
      assert xs == [xs[0]];
      OpeningNet(xs[0], e, today, day, a);
    } else {
      NothingCarried(xs, e, day, a);
    }
  }

  lemma {:induction false} NothingCarried(xs: seq<Voucher>, e: Sie.Export, day: int, a: string)
    requires xs == [] && OpeningCount(e) == 0
    ensures Net(xs, AsOf(day), One(a)) == On(Carried(e.opening), a) == 0
  {
  }

  lemma {:induction false} OpeningNet(v: Voucher, e: Sie.Export, today: int, day: int, a: string)
    requires OpeningVoucher(v, e, today)
    ensures Net([v], AsOf(day), One(a)) == if FirstDayOf(e, today) <= day then On(Carried(e.opening), a) else 0
  {
    assert [v][..0] == [] && On(Carried(e.opening), a) == NetOf(v.lines, One(a));
  }
}
