/** The VAT declaration over whole runs of sales, purchases, reversals, settlements and
    year-end closes, for any period. */
module VatRuns {
  import opened Prelude
  import opened Ledger
  import Reports
  import Books
  import opened Moms
  import opened Aggregates
  import Invoicing
  import YearEnd

  predicate IsBoxAccount(a: string) {
    exists b: Box :: Adds(b, a) || Takes(b, a)
  }

  // ---- What an entry puts in the boxes ----

  /** Swedish sales and their VAT at the three rates, services sold in the EU, input
      VAT deducted, VAT self-assessed, services bought in and outside the EU. */
  datatype Figures = Figures(
    sales: int, vat25: int, vat12: int, vat06: int, euSales: int, input: int, selfAssessed: int, eu: int, outside: int)

  const NOTHING := Figures(0, 0, 0, 0, 0, 0, 0, 0, 0)

  /** What each box should say of them. */
  function Shown(f: Figures, b: Box): int {
    match b
    case Box05 => f.sales
    case Box10 => f.vat25
    case Box11 => f.vat12
    case Box12 => f.vat06
    case Box21 => f.eu
    case Box22 => f.outside
    case Box30 => f.selfAssessed
    case Box39 => f.euSales
    case Box48 => f.input + f.selfAssessed
    case Box49 => f.vat25 + f.vat12 + f.vat06 - f.input
  }

  function Sum(x: Figures, y: Figures): Figures {
    Figures(x.sales + y.sales, x.vat25 + y.vat25, x.vat12 + y.vat12, x.vat06 + y.vat06, x.euSales + y.euSales,
            x.input + y.input, x.selfAssessed + y.selfAssessed, x.eu + y.eu, x.outside + y.outside)
  }

  function Minus(x: Figures): Figures {
    Figures(-x.sales, -x.vat25, -x.vat12, -x.vat06, -x.euSales, -x.input, -x.selfAssessed, -x.eu, -x.outside)
  }

  ghost predicate Shows(lines: seq<Line>, f: Figures) {
    forall b: Box :: Boxed(lines, b) == Shown(f, b)
  }

  lemma {:induction false} ShowsSum(xs: seq<Line>, ys: seq<Line>, f: Figures, g: Figures)
    requires Shows(xs, f) && Shows(ys, g)
    ensures Shows(xs + ys, Sum(f, g))
  {
    forall b: Box ensures Boxed(xs + ys, b) == Shown(Sum(f, g), b) {
      BoxesAdd(xs, ys, b);
    }
  }

  lemma {:induction false} OffTheBoxes(lines: seq<Line>)
    requires forall l :: l in lines ==> !IsBoxAccount(l.account)
    ensures Shows(lines, NOTHING)
  {
    if lines != [] {
      var l := lines[|lines| - 1];
      OffTheBoxes(lines[..|lines| - 1]);
      assert l in lines;
      forall b: Box ensures Boxed(lines, b) == 0 {
        assert !Adds(b, l.account) && !Takes(b, l.account);
        assert Boxed(lines[..|lines| - 1], b) == Shown(NOTHING, b);
      }
    }
  }

  lemma {:induction false} ReversedBox(lines: seq<Line>, b: Box)
    ensures Boxed(Reversed(lines), b) == -Boxed(lines, b)
  {
    if lines != [] {
      var n := |lines| - 1;
      ReversedBox(lines[..n], b);
      assert Reversed(lines)[..n] == Reversed(lines[..n]);
    }
  }

  lemma {:induction false} ReversalShows(lines: seq<Line>, f: Figures)
    requires Shows(lines, f)
    ensures Shows(Reversed(lines), Minus(f))
  {
    forall b: Box ensures Boxed(Reversed(lines), b) == Shown(Minus(f), b) {
      ReversedBox(lines, b);
    }
  }

  lemma {:induction false} BoxedOne(l: Line, b: Box)
    ensures Boxed([l], b) == BoxEffect(l, b)
  {
    assert [l][..0] == [];
  }

  // ---- Sales ----

  function NetIn(ps: seq<Priced>, sek: int -> int, c: Code): int {
    if c in Codes(ps) then NetSek(ps, sek, c) else 0
  }

  function VatIn(ps: seq<Priced>, sek: int -> int, c: Code): int {
    if c in Codes(ps) then VatSek(ps, sek, c) else 0
  }

  /** What the net and the VAT of one code are declared as. */
  function CodeFigures(c: Code, net: int, vat: int): Figures {
    match c
    case SE25 => NOTHING.(sales := net, vat25 := vat)
    case SE12 => NOTHING.(sales := net, vat12 := vat)
    case SE06 => NOTHING.(sales := net, vat06 := vat)
    case RCEU => NOTHING.(euSales := net)
    case _ => NOTHING
  }

  function SaleFigures(ps: seq<Priced>, sek: int -> int): Figures {
    Figures(NetIn(ps, sek, SE25) + NetIn(ps, sek, SE12) + NetIn(ps, sek, SE06),
            VatIn(ps, sek, SE25), VatIn(ps, sek, SE12), VatIn(ps, sek, SE06), NetIn(ps, sek, RCEU), 0, 0, 0, 0)
  }

  lemma {:induction false} CodeLineShows(c: Code, net: int)
    ensures Shows([Line(SalesAccount(c), 0, net, CodeName(c))], CodeFigures(c, net, 0))
  {
    var l := Line(SalesAccount(c), 0, net, CodeName(c));
    forall b: Box ensures Boxed([l], b) == Shown(CodeFigures(c, net, 0), b) {
      BoxedOne(l, b);
    }
  }

  lemma {:induction false} VatLineShows(c: Code, vat: int)
    ensures Shows([Credit(OutputAccount(Rate(c)), vat)], CodeFigures(c, 0, vat))
  {
    var l := Credit(OutputAccount(Rate(c)), vat);
    forall b: Box ensures Boxed([l], b) == Shown(CodeFigures(c, 0, vat), b) {
      BoxedOne(l, b);
    }
  }

  lemma {:induction false} CodeShows(ps: seq<Priced>, sek: int -> int, c: Code)
    ensures Shows(CodeLines(ps, sek, c), CodeFigures(c, NetIn(ps, sek, c), VatIn(ps, sek, c)))
  {
    var net, vat := NetIn(ps, sek, c), VatIn(ps, sek, c);
    var first := [Line(SalesAccount(c), 0, net, CodeName(c))];
    if c !in Codes(ps) {
      OffTheBoxes([]);
    } else {
      CodeLineShows(c, net);
      if vat != 0 {
        VatLineShows(c, vat);
        ShowsSum(first, [Credit(OutputAccount(Rate(c)), vat)], CodeFigures(c, net, 0), CodeFigures(c, 0, vat));
      } else {
        assert first + [] == first;
      }
    }
  }

  function SumCodes(net: Code -> int, vat: Code -> int, codes: seq<Code>): Figures {
    if codes == [] then NOTHING
    else
      var c := codes[|codes| - 1];
      Sum(SumCodes(net, vat, codes[..|codes| - 1]), CodeFigures(c, net(c), vat(c)))
  }

  lemma {:induction false} CodesShow(ps: seq<Priced>, sek: int -> int, codes: seq<Code>)
    ensures Shows(SalesLines(ps, sek, codes), SumCodes(c => NetIn(ps, sek, c), c => VatIn(ps, sek, c), codes))
  {
    if codes == [] {
      OffTheBoxes([]);
    } else {
      var n, c := |codes| - 1, codes[|codes| - 1];
      CodesShow(ps, sek, codes[..n]);
      CodeShows(ps, sek, c);
      ShowsSum(SalesLines(ps, sek, codes[..n]), CodeLines(ps, sek, c),
               SumCodes(c => NetIn(ps, sek, c), c => VatIn(ps, sek, c), codes[..n]),
               CodeFigures(c, NetIn(ps, sek, c), VatIn(ps, sek, c)));
    }
  }

  lemma {:induction false} OrderedFigures(net: Code -> int, vat: Code -> int)
    ensures SumCodes(net, vat, CODE_ORDER)
            == Figures(net(SE25) + net(SE12) + net(SE06), vat(SE25), vat(SE12), vat(SE06), net(RCEU), 0, 0, 0, 0)
  {
    var o := CODE_ORDER;
    assert o[..4][..3] == o[..3] && o[..3][..2] == o[..2] && o[..2][..1] == o[..1] && o[..1][..0] == [];
    assert SumCodes(net, vat, o[..1]) == CodeFigures(SE25, net(SE25), vat(SE25));
    assert SumCodes(net, vat, o[..2]) == Sum(SumCodes(net, vat, o[..1]), CodeFigures(SE12, net(SE12), vat(SE12)));
    assert SumCodes(net, vat, o[..3]) == Sum(SumCodes(net, vat, o[..2]), CodeFigures(SE06, net(SE06), vat(SE06)));
    assert SumCodes(net, vat, o[..4]) == Sum(SumCodes(net, vat, o[..3]), CodeFigures(RCEU, net(RCEU), vat(RCEU)));
  }

  /** A sale declares exactly its Swedish net and output VAT, and its EU services. */
  lemma {:induction false} SaleShows(ps: seq<Priced>, sek: int -> int)
    ensures Shows(Entry(ps, sek), SaleFigures(ps, sek))
  {
    CodesShow(ps, sek, CODE_ORDER);
    OrderedFigures(c => NetIn(ps, sek, c), c => VatIn(ps, sek, c));
    HeadShows(Wrap(Booked(ps, sek, CODE_ORDER)), SalesLines(ps, sek, CODE_ORDER), SaleFigures(ps, sek));
  }

  lemma {:induction false} HeadShows(debit: int, sales: seq<Line>, f: Figures)
    requires Shows(sales, f)
    ensures Shows([Debit("1510", debit)] + sales, f)
  {
    OffTheBoxes([Debit("1510", debit)]);
    ShowsSum([Debit("1510", debit)], sales, NOTHING, f);
    assert Sum(NOTHING, f) == f;
  }

  // ---- Purchases ----

  function PurchaseFigures(net: int, c: PurchaseCode): Figures {
    var vat := PurchaseVat(net, c);
    if DomesticRate(c).Some? then NOTHING.(input := vat)
    else if c == PEU then NOTHING.(selfAssessed := vat, eu := net)
    else if c == PIMP then NOTHING.(selfAssessed := vat, outside := net)
    else NOTHING
  }

  lemma {:induction false} BoxedLines(lines: seq<Line>, b: Box)
    ensures |lines| == 2 ==> Boxed(lines, b) == BoxEffect(lines[0], b) + BoxEffect(lines[1], b)
    ensures |lines| == 3 ==>
              Boxed(lines, b) == BoxEffect(lines[0], b) + BoxEffect(lines[1], b) + BoxEffect(lines[2], b)
    ensures |lines| == 4 ==>
              Boxed(lines, b)
              == BoxEffect(lines[0], b) + BoxEffect(lines[1], b) + BoxEffect(lines[2], b) + BoxEffect(lines[3], b)
  {
    if |lines| > 2 {
      BoxedLines(lines[..|lines| - 1], b);
    } else if |lines| == 2 {
      assert lines[..1] == [lines[0]];
      BoxedOne(lines[0], b);
    }
  }

  /** In box b a purchase shows its figures, plus whatever its cost does there: a cost
      account that feeds no box adds nothing. A reverse-charge purchase has no cost
      account; its VAT cancels in box 49 whatever its net. */
  lemma {:induction false} PurchaseShows(cost: string, net: int, c: PurchaseCode, b: Box)
    ensures Boxed(PurchaseLines(cost, net, c), b)
            == Shown(PurchaseFigures(net, c), b) + if IsReverseCharge(c) then 0 else BoxEffect(Debit(cost, net), b)
  {
    var vat := PurchaseVat(net, c);
    if DomesticRate(c).Some? {
      DomesticShows(cost, net, vat, b);
    } else if IsReverseCharge(c) {
      ReverseChargeShows(net, vat, c == PEU, b);
    } else {
      BoxedLines([Debit(cost, net), Credit("2440", net)], b);
    }
  }

  lemma {:induction false} DomesticShows(cost: string, net: int, vat: int, b: Box)
    ensures Boxed([Debit(cost, net), Debit("2640", vat), Credit("2440", Plus64(net, vat))], b)
            == Shown(NOTHING.(input := vat), b) + BoxEffect(Debit(cost, net), b)
  {
    BoxedLines([Debit(cost, net), Debit("2640", vat), Credit("2440", Plus64(net, vat))], b);
  }

  lemma {:induction false} ReverseChargeShows(net: int, vat: int, eu: bool, b: Box)
    ensures Boxed([Debit(if eu then "4535" else "4531", net), Credit("2440", net), Credit("2614", vat),
                   Debit("2645", vat)], b)
            == Shown(if eu then NOTHING.(selfAssessed := vat, eu := net)
                     else NOTHING.(selfAssessed := vat, outside := net), b)
  {
    BoxedLines([Debit(if eu then "4535" else "4531", net), Credit("2440", net), Credit("2614", vat),
                Debit("2645", vat)], b);
  }

  // ---- Closes ----

  /** The boxes that read result accounts. */
  predicate ReadsResults(b: Box) {
    b == Box05 || b == Box21 || b == Box22 || b == Box39
  }

  /** What a closing entry does to the boxes. */
  function CloseFigures(lines: seq<Line>): Figures {
    NOTHING.(sales := Boxed(lines, Box05), euSales := Boxed(lines, Box39),
             eu := Boxed(lines, Box21), outside := Boxed(lines, Box22))
  }

  predicate IsCloseAccount(a: string) {
    IsResult(Classify(a)) || a == YearEnd.RESULT_ACCOUNT
  }

  lemma {:induction false} OnlyResults(lines: seq<Line>, b: Box)
    requires !ReadsResults(b) && forall l :: l in lines ==> IsCloseAccount(l.account)
    ensures Boxed(lines, b) == 0
  {
    if lines != [] {
      OnlyResults(lines[..|lines| - 1], b);
      assert lines[|lines| - 1] in lines;
    }
  }

  lemma {:induction false} EmptyingAccounts(rows: seq<Reports.Row>)
    ensures forall l :: l in YearEnd.EmptyingLines(rows) ==> IsCloseAccount(l.account)
  {
    if rows != [] {
      EmptyingAccounts(rows[..|rows| - 1]);
    }
  }

  lemma {:induction false} ClosingAccounts(rows: seq<Reports.Row>)
    ensures forall l :: l in YearEnd.ClosingLines(rows) ==> IsCloseAccount(l.account)
  {
    EmptyingAccounts(rows);
  }

  /** A close, on whatever balances, moves no box but 05, 21, 22 and 39. */
  lemma {:induction false} CloseShows(rows: seq<Reports.Row>)
    ensures Shows(YearEnd.ClosingLines(rows), CloseFigures(YearEnd.ClosingLines(rows)))
  {
    var lines := YearEnd.ClosingLines(rows);
    ClosingAccounts(rows);
    forall b: Box ensures Boxed(lines, b) == Shown(CloseFigures(lines), b) {
      CloseShowsIn(lines, b);
    }
  }

  lemma {:induction false} CloseShowsIn(lines: seq<Line>, b: Box)
    requires forall l :: l in lines ==> IsCloseAccount(l.account)
    ensures Boxed(lines, b) == Shown(CloseFigures(lines), b)
  {
    if !ReadsResults(b) {
      OnlyResults(lines, b);
    }
  }

  // ---- Runs ----

  /** A deal is posted, or refused and leaves no trace. Reversal covers credit notes
      and undone vouchers; Settle covers payments and anything else off the boxes. A
      year is closed on balances that may be stale. */
  datatype Deal =
    | Sale(doc: Invoicing.Document, series: string, date: int, text: string)
    | Purchase(cost: string, net: int, code: PurchaseCode, series: string, date: int, text: string)
    | Reversal(of: nat, series: string, date: int, text: string)
    | Settle(lines: seq<Line>, series: string, date: int, text: string)
    | CloseYear(id: nat, rows: seq<Reports.Row>, text: string)
    | SetLock(lock: Option<int>)

  /** The books, and for every voucher what was traded and what was closed by it. */
  datatype Trade = Trade(book: Books.Book, traded: seq<Figures>, closed: seq<Figures>)

  predicate IsTrading(deal: Deal) {
    deal.Sale? || deal.Purchase? || deal.Settle?
  }

  function DealLines(deal: Deal): seq<Line>
    requires IsTrading(deal)
  {
    match deal
    case Sale(doc, _, _, _) => Invoicing.EntryLines(doc)
    case Purchase(cost, net, code, _, _, _) => PurchaseLines(cost, net, code)
    case Settle(lines, _, _, _) => lines
  }

  function DealFigures(deal: Deal): Figures
    requires IsTrading(deal)
  {
    match deal
    case Sale(doc, _, _, _) => SaleFigures(Invoicing.Prices(doc.items), Invoicing.Converter(Invoicing.RateOf(doc)))
    case Purchase(_, net, code, _, _, _) => PurchaseFigures(net, code)
    case Settle(_, _, _, _) => NOTHING
  }

  function UndoLines(vs: seq<Voucher>, of: nat): seq<Line> {
    if of < |vs| then Reversed(vs[of].lines) else []
  }

  function Undone(figures: seq<Figures>, of: nat): Figures {
    if of < |figures| then Minus(figures[of]) else NOTHING
  }

  /** A posted voucher with its figures; a refusal changes nothing. */
  function Register<E>(t: Trade, posted: Result<Books.Book, E>, traded: Figures, closed: Figures): Trade {
    match posted
    case Ok(b) => Trade(b, t.traded + [traded], t.closed + [closed])
    case Err(_) => t
  }

  function AfterDeal(t: Trade, deal: Deal): Trade {
    match deal
    case CloseYear(id, rows, text) =>
      if id !in t.book.years then t
      else Register(t, YearEnd.CloseWith(t.book, id, t.book.years[id], rows, text), NOTHING,
                    CloseFigures(YearEnd.ClosingLines(rows)))
    case SetLock(lock) => t.(book := t.book.(lock := lock))
    case Reversal(of, series, date, text) =>
      Register(t, Books.Post(t.book, series, date, text, UndoLines(t.book.vouchers, of)),
               Undone(t.traded, of), Undone(t.closed, of))
    case _ =>
      Register(t, Books.Post(t.book, deal.series, deal.date, deal.text, DealLines(deal)), DealFigures(deal), NOTHING)
  }

  function RunDeals(t: Trade, deals: seq<Deal>): Trade
    decreases |deals|
  {
    if deals == [] then t else RunDeals(AfterDeal(t, deals[0]), deals[1..])
  }

  /** Costs and settlements are booked on accounts that feed no box. */
  ghost predicate OrdinaryDeal(deal: Deal) {
    && (deal.Purchase? ==> IsReverseCharge(deal.code) || !IsBoxAccount(deal.cost))
    && (deal.Settle? ==> forall l :: l in deal.lines ==> !IsBoxAccount(l.account))
  }

  /** The figures of the vouchers that a period covers. */
  function SumCovered(vs: seq<Voucher>, fs: seq<Figures>, p: Reports.Period): Figures
    requires |vs| == |fs|
  {
    if vs == [] then NOTHING
    else
      var n := |vs| - 1;
      Sum(SumCovered(vs[..n], fs[..n], p), Counted(vs[n], fs[n], p))
  }

  function Counted(v: Voucher, f: Figures, p: Reports.Period): Figures {
    if Reports.Covers(p, v) then f else NOTHING
  }

  /** Figures in no box but the four that a close can move. */
  predicate OnlyClosed(f: Figures) {
    f.vat25 == f.vat12 == f.vat06 == f.input == f.selfAssessed == 0
  }

  /** Every voucher shows what it traded and closed. */
  ghost predicate Declared(t: Trade) {
    && |t.traded| == |t.closed| == |t.book.vouchers|
    && forall k :: 0 <= k < |t.traded| ==>
         Shows(t.book.vouchers[k].lines, Sum(t.traded[k], t.closed[k])) && OnlyClosed(t.closed[k])
  }

  lemma {:induction false} DealShows(deal: Deal)
    requires OrdinaryDeal(deal) && IsTrading(deal)
    ensures Shows(DealLines(deal), DealFigures(deal))
  {
    match deal {
      case Sale(doc, _, _, _) => SaleShows(Invoicing.Prices(doc.items), Invoicing.Converter(Invoicing.RateOf(doc)));
      case Purchase(cost, net, code, _, _, _) => OrdinaryPurchaseShows(cost, net, code);
      case Settle(lines, _, _, _) => OffTheBoxes(lines);
    }
  }

  lemma {:induction false} UndoShows(t: Trade, of: nat)
    requires Declared(t)
    ensures Shows(UndoLines(t.book.vouchers, of), Sum(Undone(t.traded, of), Undone(t.closed, of)))
    ensures OnlyClosed(Undone(t.closed, of))
  {
    if of < |t.traded| {
      DeclaredAt(t, of);
      TakenBackShows(t.book.vouchers[of].lines, t.traded[of], t.closed[of]);
    } else {
      NothingShows();
    }
  }

  lemma {:induction false} DeclaredAt(t: Trade, k: nat)
    requires Declared(t) && k < |t.traded|
    ensures Shows(t.book.vouchers[k].lines, Sum(t.traded[k], t.closed[k])) && OnlyClosed(t.closed[k])
  {
  }

  lemma {:induction false} NothingShows()
    ensures Shows([], Sum(NOTHING, NOTHING)) && OnlyClosed(NOTHING)
  {
    OffTheBoxes([]);
    SumNothing(NOTHING);
  }

  lemma {:induction false} TakenBackShows(lines: seq<Line>, traded: Figures, closed: Figures)
    requires Shows(lines, Sum(traded, closed)) && OnlyClosed(closed)
    ensures Shows(Reversed(lines), Sum(Minus(traded), Minus(closed))) && OnlyClosed(Minus(closed))
  {
    ReversalShows(lines, Sum(traded, closed));
    MinusSum(traded, closed);
  }

  lemma {:induction false} MinusSum(f: Figures, g: Figures)
    ensures Minus(Sum(f, g)) == Sum(Minus(f), Minus(g))
  {
  }

  lemma {:induction false} OrdinaryPurchaseShows(cost: string, net: int, c: PurchaseCode)
    requires IsReverseCharge(c) || !IsBoxAccount(cost)
    ensures Shows(PurchaseLines(cost, net, c), PurchaseFigures(net, c))
  {
    forall b: Box ensures Boxed(PurchaseLines(cost, net, c), b) == Shown(PurchaseFigures(net, c), b) {
      PurchaseShows(cost, net, c, b);
      assert !IsReverseCharge(c) ==> !Adds(b, cost) && !Takes(b, cost);
    }
  }

  lemma {:induction false} SumNothing(f: Figures)
    ensures Sum(f, NOTHING) == f && Sum(NOTHING, f) == f
  {
  }

  lemma {:induction false} RegisterDeclares<E>(
    t: Trade, posted: Result<Books.Book, E>, lines: seq<Line>, traded: Figures, closed: Figures)
    requires Declared(t) && Shows(lines, Sum(traded, closed)) && OnlyClosed(closed)
    requires posted.Ok? ==>
               && |posted.value.vouchers| == |t.book.vouchers| + 1 && t.book.vouchers <= posted.value.vouchers
               && posted.value.vouchers[|t.book.vouchers|].lines == lines
    ensures Declared(Register(t, posted, traded, closed))
  {
  }

  lemma {:induction false} PostingDeclares(
    t: Trade, series: string, date: int, text: string, lines: seq<Line>, traded: Figures, closed: Figures)
    requires Declared(t) && Shows(lines, Sum(traded, closed)) && OnlyClosed(closed)
    ensures Declared(Register(t, Books.Post(t.book, series, date, text, lines), traded, closed))
  {
    RegisterDeclares(t, Books.Post(t.book, series, date, text, lines), lines, traded, closed);
  }

  lemma {:induction false} CloseDeclares(t: Trade, id: nat, rows: seq<Reports.Row>, text: string)
    requires Declared(t) && id in t.book.years
    ensures Declared(Register(t, YearEnd.CloseWith(t.book, id, t.book.years[id], rows, text), NOTHING,
                              CloseFigures(YearEnd.ClosingLines(rows))))
  {
    var lines := YearEnd.ClosingLines(rows);
    CloseShows(rows);
    SumNothing(CloseFigures(lines));
    var closed := YearEnd.CloseWith(t.book, id, t.book.years[id], rows, text);
    RegisterDeclares(t, closed, lines, NOTHING, CloseFigures(lines));
  }

  lemma {:induction false} TradingDeclares(t: Trade, deal: Deal)
    requires Declared(t) && OrdinaryDeal(deal) && IsTrading(deal)
    ensures Declared(Register(t, Books.Post(t.book, deal.series, deal.date, deal.text, DealLines(deal)),
                              DealFigures(deal), NOTHING))
  {
    DealShows(deal);
    SumNothing(DealFigures(deal));
    PostingDeclares(t, deal.series, deal.date, deal.text, DealLines(deal), DealFigures(deal), NOTHING);
  }

  lemma {:induction false} DealDeclares(t: Trade, deal: Deal)
    requires Declared(t) && OrdinaryDeal(deal)
    ensures Declared(AfterDeal(t, deal))
  {
    match deal {
      case CloseYear(id, rows, text) =>
        if id in t.book.years {
          CloseDeclares(t, id, rows, text);
        }
      case SetLock(_) =>
      case Reversal(of, series, date, text) =>
        UndoShows(t, of);
        PostingDeclares(t, series, date, text, UndoLines(t.book.vouchers, of),
                        Undone(t.traded, of), Undone(t.closed, of));
      case _ => TradingDeclares(t, deal);
    }
  }

  lemma {:induction false} RunDeclares(t: Trade, deals: seq<Deal>)
    requires Declared(t) && forall k :: 0 <= k < |deals| ==> OrdinaryDeal(deals[k])
    ensures Declared(RunDeals(t, deals))
    decreases |deals|
  {
    if deals != [] {
      DealDeclares(t, deals[0]);
      RunDeclares(AfterDeal(t, deals[0]), deals[1..]);
    }
  }

  function Both(traded: seq<Figures>, closed: seq<Figures>): (r: seq<Figures>)
    requires |traded| == |closed|
    ensures |r| == |traded|
  {
    seq(|traded|, k requires 0 <= k < |traded| => Sum(traded[k], closed[k]))
  }

  lemma {:induction false} CoveredShow(vs: seq<Voucher>, fs: seq<Figures>, p: Reports.Period)
    requires |vs| == |fs| && forall k :: 0 <= k < |vs| ==> Shows(vs[k].lines, fs[k])
    ensures Shows(Reports.CoveredLines(vs, p), SumCovered(vs, fs, p))
  {
    OffTheBoxes([]);
    if vs != [] {
      var n := |vs| - 1;
      CoveredShow(vs[..n], fs[..n], p);
      ShowsSum(Reports.CoveredLines(vs[..n], p), if Reports.Covers(p, vs[n]) then vs[n].lines else [],
               SumCovered(vs[..n], fs[..n], p), Counted(vs[n], fs[n], p));
    }
  }

  lemma {:induction false} SumsExchange(f: Figures, g: Figures, x: Figures, y: Figures)
    ensures Sum(Sum(f, g), Sum(x, y)) == Sum(Sum(f, x), Sum(g, y))
    ensures OnlyClosed(g) && OnlyClosed(y) ==> OnlyClosed(Sum(g, y))
    ensures OnlyClosed(NOTHING) && Sum(NOTHING, NOTHING) == NOTHING
  {
  }

  lemma {:induction false} CoveredBoth(vs: seq<Voucher>, traded: seq<Figures>, closed: seq<Figures>, p: Reports.Period)
    requires |vs| == |traded| == |closed|
    ensures SumCovered(vs, Both(traded, closed), p) == Sum(SumCovered(vs, traded, p), SumCovered(vs, closed, p))
  {
    SumsExchange(NOTHING, NOTHING, NOTHING, NOTHING);
    if vs != [] {
      var n := |vs| - 1;
      CoveredBoth(vs[..n], traded[..n], closed[..n], p);
      assert Both(traded, closed)[..n] == Both(traded[..n], closed[..n]);
      SumsExchange(SumCovered(vs[..n], traded[..n], p), SumCovered(vs[..n], closed[..n], p),
                   Counted(vs[n], traded[n], p), Counted(vs[n], closed[n], p));
    }
  }

  lemma {:induction false} CoveredOnlyClosed(vs: seq<Voucher>, closed: seq<Figures>, p: Reports.Period)
    requires |vs| == |closed| && forall f :: f in closed ==> OnlyClosed(f)
    ensures OnlyClosed(SumCovered(vs, closed, p))
  {
    if vs != [] {
      var n := |vs| - 1;
      CoveredOnlyClosed(vs[..n], closed[..n], p);
      assert closed[n] in closed;
    }
  }

  /** No covered voucher undoes a close under another series than the close's own. */
  predicate ClosesStand(t: Trade, p: Reports.Period)
    requires |t.closed| == |t.book.vouchers|
  {
    forall k :: 0 <= k < |t.closed| && Reports.Covers(p, t.book.vouchers[k]) ==>
      t.closed[k] == NOTHING || t.book.vouchers[k].series == YearEnd.CLOSE_SERIES
  }

  /** The periods of the web declaration leave the closes' own series out. */
  predicate LeavesClosesOut(p: Reports.Period) {
    p.BetweenExcluding? && p.series == YearEnd.CLOSE_SERIES
  }

  lemma {:induction false} NothingClosed(vs: seq<Voucher>, closed: seq<Figures>, p: Reports.Period, b: Box)
    requires |closed| == |vs| && forall k :: 0 <= k < |vs| ==> Shown(Counted(vs[k], closed[k], p), b) == 0
    ensures Shown(SumCovered(vs, closed, p), b) == 0
  {
    if vs != [] {
      var n := |vs| - 1;
      NothingClosed(vs[..n], closed[..n], p, b);
      ShownSum(SumCovered(vs[..n], closed[..n], p), Counted(vs[n], closed[n], p), b);
    }
  }

  /** The declared box is what was traded and what closes took out, in int64. So it is
      what was traded exactly when the closes come to nothing in it: always outside
      boxes 05, 21, 22 and 39; and where the closes' series is left out, unless one was
      undone under another series. */
  ghost predicate Declares(t: Trade, bal: map<string, int>, p: Reports.Period, box: Box) {
    && |t.traded| == |t.closed| == |t.book.vouchers|
    && var traded := Shown(SumCovered(t.book.vouchers, t.traded, p), box);
       var closed := Shown(SumCovered(t.book.vouchers, t.closed, p), box);
       && Report(bal, box) == Plus64(traded, closed)
       && (Report(bal, box) == Wrap(traded) <==> Wrap(closed) == 0)
       && (!ReadsResults(box) ==> Report(bal, box) == Wrap(traded))
       && (LeavesClosesOut(p) && ClosesStand(t, p) ==> Report(bal, box) == Wrap(traded))
  }

  /** Over every run and for every period, each box of the declaration made from the
      period's balances tells what the covered vouchers traded and closed: box 49 is
      output VAT less domestic input VAT, and reverse-charge purchases only show in
      boxes 21, 22, 30 and 48. */
  lemma {:induction false} DeclarationIsTrue(b: Books.Book, deals: seq<Deal>, bal: map<string, int>,
      p: Reports.Period, box: Box)
    requires b.vouchers == [] && forall k :: 0 <= k < |deals| ==> OrdinaryDeal(deals[k])
    requires Reflects(bal, Reports.CoveredLines(RunDeals(Trade(b, [], []), deals).book.vouchers, p))
    ensures Declares(RunDeals(Trade(b, [], []), deals), bal, p, box)
  {
    RunDeclares(Trade(b, [], []), deals);
    DeclaredReport(RunDeals(Trade(b, [], []), deals), bal, p, box);
  }

  /** The balances of the covered vouchers, in int64, reflect their postings; an account
      without one stands at nothing. */
  lemma {:induction false} BalancesReflect(bal: map<string, int>, vs: seq<Voucher>, p: Reports.Period)
    requires bal.Keys == Reports.LineAccounts(Reports.CoveredLines(vs, p))
    requires forall a :: a in bal ==> bal[a] == Wrap(Reports.Net(vs, p, One(a)))
    ensures Reflects(bal, Reports.CoveredLines(vs, p))
    ensures forall a :: a !in bal ==> Get(bal, a) == 0
  {
    var lines := Reports.CoveredLines(vs, p);
    Reports.LineAccountsCollect(lines);
    forall a {:trigger NetOf(lines, One(a))} ensures Same(Get(bal, a), NetOf(lines, One(a))) {
      if a in bal {
        Reports.CoveredNet(vs, p, One(a));
        SameWraps(NetOf(lines, One(a)), 0);
      } else {
        NetOfAbsent(lines, One(a));
      }
    }
  }

  lemma {:induction false} DeclaredReport(t: Trade, bal: map<string, int>, p: Reports.Period, box: Box)
    requires Declared(t) && Reflects(bal, Reports.CoveredLines(t.book.vouchers, p))
    ensures Declares(t, bal, p, box)
  {
    TradeDeclares(t, p, box);
    var traded := Shown(SumCovered(t.book.vouchers, t.traded, p), box);
    var closed := Shown(SumCovered(t.book.vouchers, t.closed, p), box);
    ReportReads(bal, Reports.CoveredLines(t.book.vouchers, p), box);
    AddsNothing(Report(bal, box), Boxed(Reports.CoveredLines(t.book.vouchers, p), box), traded, closed);
  }

  lemma {:induction false} TradeDeclares(t: Trade, p: Reports.Period, box: Box)
    requires Declared(t)
    ensures Boxed(Reports.CoveredLines(t.book.vouchers, p), box)
            == Shown(SumCovered(t.book.vouchers, t.traded, p), box)
               + Shown(SumCovered(t.book.vouchers, t.closed, p), box)
    ensures !ReadsResults(box) || (LeavesClosesOut(p) && ClosesStand(t, p)) ==>
              Shown(SumCovered(t.book.vouchers, t.closed, p), box) == 0
  {
    var vs := t.book.vouchers;
    CoveredShow(vs, Both(t.traded, t.closed), p);
    CoveredBoth(vs, t.traded, t.closed, p);
    CoveredOnlyClosed(vs, t.closed, p);
    ShownSum(SumCovered(vs, t.traded, p), SumCovered(vs, t.closed, p), box);
    if LeavesClosesOut(p) && ClosesStand(t, p) {
      forall k | 0 <= k < |vs| ensures Shown(Counted(vs[k], t.closed[k], p), box) == 0 {
        assert Reports.Covers(p, vs[k]) ==> vs[k].series != YearEnd.CLOSE_SERIES;
      }
      NothingClosed(vs, t.closed, p, box);
    }
  }

  lemma {:induction false} ShownSum(f: Figures, g: Figures, b: Box)
    ensures Shown(Sum(f, g), b) == Shown(f, b) + Shown(g, b)
    ensures OnlyClosed(g) && !ReadsResults(b) ==> Shown(g, b) == 0
    ensures Shown(NOTHING, b) == 0
  {
  }

  lemma {:induction false} AddsNothing(report: int, boxed: int, traded: int, closed: int)
    requires report == Wrap(boxed) && boxed == traded + closed
    ensures report == Plus64(traded, closed)
    ensures report == Wrap(traded) <==> Wrap(closed) == 0
    ensures closed == 0 ==> report == Wrap(traded)
  {
    SameWraps(boxed, traded);
    SameWraps(closed, 0);
  }
}
