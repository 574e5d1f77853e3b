/** A customer invoice, the balanced entry it becomes, and its SEK gross: amounts are
    aggregated per VAT code and converted, each rounded half away from zero. */
module Invoicing {
  import opened Prelude
  import opened Ledger
  import opened Moms
  import opened Aggregates

  /** Quantity in thousandths, unit price in öre of the invoice currency. */
  datatype Item = Item(quantityMilli: int, unitPrice: int, code: Code)

  /** Line amounts in the currency; ratePpm is SEK per unit in millionths, 0 for SEK. */
  datatype Document = Document(currency: string, ratePpm: int, items: seq<Item>)

  const PPM: int := 1_000_000

  function ItemNet(i: Item): int {
    Rounded(i.unitPrice * i.quantityMilli, 1000)
  }

  function PriceOf(i: Item): Priced {
    Priced(i.code, ItemNet(i), Vat(ItemNet(i), Rate(i.code)))
  }

  function Prices(items: seq<Item>): seq<Priced> {
    if items == [] then [] else Prices(items[..|items| - 1]) + [PriceOf(items[|items| - 1])]
  }

  function RateOf(d: Document): int {
    if d.ratePpm == 0 then PPM else d.ratePpm
  }

  function ToSek(x: int, ppm: int): int {
    Rounded(x * ppm, PPM)
  }

  function Converter(ppm: int): int -> int {
    x => ToSek(x, ppm)
  }

  function CodesOf(d: Document): set<Code> {
    Codes(Prices(d.items))
  }

  /** The sum over all codes, in int64. */
  ghost function Gross(d: Document): int {
    Wrap(SumOver(CodesOf(d), ShareAt(Prices(d.items), Converter(RateOf(d)))))
  }

  function EntryLines(d: Document): seq<Line> {
    Entry(Prices(d.items), Converter(RateOf(d)))
  }

  /** What the entry credits in all. */
  function Sales(d: Document): int {
    Booked(Prices(d.items), Converter(RateOf(d)), CODE_ORDER)
  }

  /** What it debits to 1510. */
  function Receivable(d: Document): int {
    Wrap(Sales(d))
  }

  // ---- What a line comes to ----

  /** A line's net is quantity times price, to the nearest öre. */
  lemma {:induction false} NetIsQuantityTimesPrice(i: Item)
    requires MIN_INT64 + 500 <= i.unitPrice * i.quantityMilli <= MAX_INT64 - 500
    ensures var n, net := i.unitPrice * i.quantityMilli, PriceOf(i).net;
            && (n >= 0 ==> -1000 < 2 * (net * 1000 - n) <= 1000)
            && (n <= 0 ==> -1000 <= 2 * (net * 1000 - n) < 1000)
    ensures PriceOf(i).code == i.code
  {
    RoundedWithin(i.unitPrice * i.quantityMilli, 1000);
  }

  /** The percentages of the codes. */
  function Percent(c: Code): int {
    match c case SE25 => 25 case SE12 => 12 case SE06 => 6 case RCEU => 0 case EXP => 0 case OtherCode(_) => 0
  }

  /** Its VAT is the percentage of the net, to the nearest öre, and nothing at 0 percent. */
  lemma {:induction false} VatIsPercentOfNet(i: Item)
    requires MIN_INT64 + 50 <= PriceOf(i).net * Percent(i.code) <= MAX_INT64 - 50
    ensures var net, vat, rate := PriceOf(i).net, PriceOf(i).vat, Percent(i.code);
            && (net >= 0 ==> -100 < 2 * (vat * 100 - net * rate) <= 100)
            && (net <= 0 ==> -100 <= 2 * (vat * 100 - net * rate) < 100)
            && (rate == 0 ==> vat == 0)
  {
    VatWithin(PriceOf(i).net, Percent(i.code));
    if PriceOf(i).net == 0 {
      assert PriceOf(i).net * Percent(i.code) == 0;
    }
  }

  method PriceLines(items: seq<Item>) returns (ps: seq<Priced>)
    ensures ps == Prices(items)
  {
    ps := [];
    for i := 0 to |items|
      invariant ps == Prices(items[..i])
    {
      assert items[..i + 1][..i] == items[..i];
      ps := ps + [PriceOf(items[i])];
    }
    assert items[..|items|] == items;
  }

  /** GrossSEK ranges over a Go map, in no fixed order. */
  method GrossSek(d: Document) returns (g: int)
    ensures g == Gross(d)
  {
    var ps := PriceLines(d.items);
    var sums := Aggregate(ps);
    HeldShares(sums, ps, Converter(RateOf(d)));
    g := SumShares(sums, Converter(RateOf(d)), ShareAt(ps, Converter(RateOf(d))));
  }

  method VerificationLines(d: Document) returns (lines: seq<Line>)
    ensures lines == EntryLines(d)
    ensures LinesFit(lines)
  {
    var ps := PriceLines(d.items);
    var sums := Aggregate(ps);
    lines := BuildEntry(sums, ps, Converter(RateOf(d)));
    EntryFits(d);
  }

  lemma {:induction false} EntryFits(d: Document)
    ensures LinesFit(EntryLines(d))
  {
    var sek := Converter(RateOf(d));
    forall x ensures Fits(sek(x)) {
      RoundedFits(x * RateOf(d), PPM);
    }
    SalesFit(Prices(d.items), sek, CODE_ORDER);
  }

  /** Whatever the items, the entry debits exactly the receivable to 1510 and touches
      no account but 1510 and the sales and output VAT accounts. It balances exactly
      when what it credits stays in int64. */
  lemma {:induction false} EntryBalances(d: Document)
    ensures TotalDebit(EntryLines(d)) == NetOf(EntryLines(d), One("1510")) == Receivable(d)
    ensures TotalDebit(EntryLines(d)) == TotalCredit(EntryLines(d)) <==> Fits(Sales(d))
    ensures forall l :: l in EntryLines(d) ==> l.account == "1510" || IsSaleAccount(l.account)
  {
    EntryTotals(Prices(d.items), Converter(RateOf(d)));
  }

  /** The shares of the codes that the entry does not know. */
  ghost function UnknownShares(d: Document): int {
    SumOver(CodesOf(d) - KNOWN, ShareAt(Prices(d.items), Converter(RateOf(d))))
  }

  /** GrossSEK counts the shares of unknown codes beyond the entry. So the two agree
      exactly when those add to nothing in int64, as when all codes are known. */
  lemma {:induction false} GrossIsReceivablePlusUnknown(d: Document)
    ensures Gross(d) == Plus64(Receivable(d), UnknownShares(d))
    ensures Gross(d) == Receivable(d) <==> Wrap(UnknownShares(d)) == 0
    ensures CodesOf(d) <= KNOWN ==> Gross(d) == Receivable(d)
  {
    SumIsDebitPlusUnknown(Prices(d.items), Converter(RateOf(d)));
  }

  /** Prices are counted item by item. */
  lemma {:induction false} PricesPermute(xs: seq<Item>, ys: seq<Item>)
    requires multiset(xs) == multiset(ys)
    ensures multiset(Prices(xs)) == multiset(Prices(ys))
    decreases |xs|
  {
    if xs == [] {
      assert |multiset(ys)| == 0;
    } else {
      var n := |xs| - 1;
      var k := MatchLast(xs, ys);
      PricesPermute(xs[..n], ys[..k] + ys[k + 1..]);
      PricesRemove(ys, k);
    }
  }

  lemma {:induction false} PricesRemove(ys: seq<Item>, k: nat)
    requires k < |ys|
    ensures multiset(Prices(ys)) == multiset(Prices(ys[..k] + ys[k + 1..])) + multiset{PriceOf(ys[k])}
  {
    assert ys == ys[..k + 1] + ys[k + 1..] && ys[..k + 1][..k] == ys[..k];
    PricesAppend(ys[..k + 1], ys[k + 1..]);
    PricesAppend(ys[..k], ys[k + 1..]);
  }

  lemma {:induction false} PricesAppend(xs: seq<Item>, ys: seq<Item>)
    ensures Prices(xs + ys) == Prices(xs) + Prices(ys)
  {
    if ys == [] {
      assert xs + ys == xs;
    } else {
      var n := |ys| - 1;
      PricesAppend(xs, ys[..n]);
      assert (xs + ys)[..|xs + ys| - 1] == xs + ys[..n];
    }
  }

  /** Reordering the items changes neither the entry nor the SEK gross. */
  lemma {:induction false} EntryOrderIrrelevant(d: Document, items: seq<Item>)
    requires multiset(items) == multiset(d.items)
    ensures EntryLines(d.(items := items)) == EntryLines(d) && Gross(d.(items := items)) == Gross(d)
  {
    PricesPermute(items, d.items);
    SumOrderIrrelevant(Prices(items), Prices(d.items), Converter(RateOf(d)));
  }

  // ---- The conversion error ----

  /** Amounts are multiplied by the document's rate in millionths, one where it gives
      none, and rounded to the nearest öre. */
  lemma {:induction false} ConversionIs(d: Document, x: int)
    requires MIN_INT64 + 500_000 <= x * (if d.ratePpm == 0 then 1_000_000 else d.ratePpm) <= MAX_INT64 - 500_000
    ensures var n, y := x * (if d.ratePpm == 0 then 1_000_000 else d.ratePpm), Converter(RateOf(d))(x);
            && (n >= 0 ==> -1_000_000 < 2 * (y * 1_000_000 - n) <= 1_000_000)
            && (n <= 0 ==> -1_000_000 <= 2 * (y * 1_000_000 - n) < 1_000_000)
  {
    RoundedWithin(x * RateOf(d), 1_000_000);
  }

  /** Neither the sums for the code nor their conversion leave int64. */
  predicate Converts(d: Document, c: Code) {
    var net, vat := NetFor(Prices(d.items), c), VatFor(Prices(d.items), c);
    Fits(net) && Fits(Away(net * RateOf(d), PPM)) && Fits(vat) && Fits(Away(vat * RateOf(d), PPM))
  }

  /** A conversion is off by at most half an öre exactly when it stays in int64. */
  lemma {:induction false} ToSekError(x: int, ppm: int)
    requires Fits(Away(x * ppm, PPM))
    ensures -PPM <= 2 * (ToSek(x, ppm) * PPM - x * ppm) <= PPM
    ensures ppm == PPM ==> ToSek(x, ppm) == x
  {
    RoundedIsNearest(x * ppm, PPM);
    NearestIsNearest(x * ppm, PPM);
    if ppm == PPM {
      RoundedExact(x, PPM);
    }
  }

  lemma {:induction false} ShareError(d: Document, c: Code)
    requires Converts(d, c)
    ensures var ps, ppm := Prices(d.items), RateOf(d);
            var share, plain := ShareAt(ps, Converter(ppm))(c), PlainAt(ps)(c);
            -PPM <= share * PPM - plain * ppm <= PPM && (ppm == PPM ==> share == plain)
  {
    var net, vat := NetFor(Prices(d.items), c), VatFor(Prices(d.items), c);
    ToSekError(net, RateOf(d));
    ToSekError(vat, RateOf(d));
    Distribute(ToSek(net, RateOf(d)), ToSek(vat, RateOf(d)), net, vat, PPM, RateOf(d));
  }

  /** No sum and no conversion of the document leaves int64. */
  ghost predicate StaysInRange(d: Document) {
    && (forall c :: c in CodesOf(d) ==> Converts(d, c))
    && Fits(SumOver(CodesOf(d), ShareAt(Prices(d.items), Converter(RateOf(d)))))
  }

  /** In range, the SEK gross is within one öre per VAT code of the total times the
      rate, and is the total itself at the identity rate. */
  lemma {:induction false} GrossIsClose(d: Document)
    requires StaysInRange(d)
    ensures var k := |CodesOf(d)|;
            -k * PPM <= Gross(d) * PPM - Total(Prices(d.items)) * RateOf(d) <= k * PPM
    ensures RateOf(d) == PPM ==> Gross(d) == Total(Prices(d.items))
  {
    var ps, ppm := Prices(d.items), RateOf(d);
    forall c | c in Codes(ps)
      ensures var share, plain := ShareAt(ps, Converter(ppm))(c), PlainAt(ps)(c);
              -PPM <= share * PPM - plain * ppm <= PPM && (ppm == PPM ==> share == plain)
    {
      ShareError(d, c);
    }
    SumIsClose(ps, ShareAt(ps, Converter(ppm)), PPM, ppm);
  }

  // ---- From quantities and prices to the gross ----

  /** The product of the line stays in int64; its VAT then does. */
  predicate ItemStaysInRange(i: Item) {
    MIN_INT64 + 500 <= i.unitPrice * i.quantityMilli <= MAX_INT64 - 500
  }

  lemma {:induction false} VatStaysInRange(i: Item)
    requires ItemStaysInRange(i)
    ensures MIN_INT64 + 50 <= PriceOf(i).net * Percent(i.code) <= MAX_INT64 - 50
  {
    var net := PriceOf(i).net;
    NetIsQuantityTimesPrice(i);
    assert -MAX_INT64 <= net * 25 <= MAX_INT64 - 50;
    match i.code {
      case SE25 => assert net * Percent(i.code) == net * 25;
      case SE12 => assert net * Percent(i.code) == net * 12;
      case SE06 => assert net * Percent(i.code) == net * 6;
      case _ => assert net * Percent(i.code) == 0;
    }
  }

  /** The exact gross of the items, in units of a hundred thousandth of an öre. */
  function ExactGross(items: seq<Item>): int {
    if items == [] then 0
    else
      var i := items[|items| - 1];
      ExactGross(items[..|items| - 1]) + i.unitPrice * i.quantityMilli * (100 + Percent(i.code))
  }

  lemma {:induction false} ItemIsClose(n: int, net: int, rate: int, vat: int)
    requires -1000 <= 2 * (net * 1000 - n) <= 1000 && 0 <= rate <= 25 && -100 <= 2 * (vat * 100 - net * rate) <= 100
    ensures -112_500 <= (net + vat) * 100_000 - n * (100 + rate) <= 112_500
  {
    var e := net * 1000 - n;
    assert n * (100 + rate) == net * 100_000 - 100 * e + rate * n;
    assert rate * n == 1000 * (net * rate) - rate * e by {
      assert rate * n == rate * (net * 1000 - e) == rate * (net * 1000) - rate * e;
    }
    assert -12_500 <= rate * e <= 12_500 by {
      assert rate * e <= rate * 500 && rate * e >= rate * -500;
    }
  }

  /** The total is within nine eighths of an öre per line of quantity times price and
      its percentage. */
  lemma {:induction false} TotalIsClose(items: seq<Item>)
    requires forall i :: i in items ==> ItemStaysInRange(i)
    ensures -112_500 * |items| <= Total(Prices(items)) * 100_000 - ExactGross(items) <= 112_500 * |items|
  {
    if items != [] {
      var i := items[|items| - 1];
      TotalIsClose(items[..|items| - 1]);
      assert i in items;
      NetIsQuantityTimesPrice(i);
      VatStaysInRange(i);
      VatIsPercentOfNet(i);
      ItemIsClose(i.unitPrice * i.quantityMilli, PriceOf(i).net, Percent(i.code), PriceOf(i).vat);
    }
  }

  /** So in range the gross in SEK is quantity times price times the percentage times the
      rate, within an öre per code and nine eighths of an öre per line at that rate. */
  lemma {:induction false} GrossIsCloseToPrices(d: Document)
    requires StaysInRange(d) && forall i :: i in d.items ==> ItemStaysInRange(i)
    ensures RateOf(d) == PPM ==>
              -112_500 * |d.items| <= Gross(d) * 100_000 - ExactGross(d.items) <= 112_500 * |d.items|
    ensures var off := |CodesOf(d)| * PPM * 100_000 + 112_500 * |d.items| * Abs(RateOf(d));
            -off <= Gross(d) * PPM * 100_000 - ExactGross(d.items) * RateOf(d) <= off
  {
    GrossIsClose(d);
    TotalIsClose(d.items);
    Compose(Gross(d) * PPM, Total(Prices(d.items)), RateOf(d), |CodesOf(d)| * PPM,
            ExactGross(d.items), 112_500 * |d.items|);
  }

  lemma {:induction false} Compose(g: int, total: int, rate: int, k: int, exact: int, m: int)
    requires -k <= g - total * rate <= k && -m <= total * 100_000 - exact <= m
    ensures var off := k * 100_000 + m * Abs(rate); -off <= g * 100_000 - exact * rate <= off
  {
    var e := total * 100_000 - exact;
    assert g * 100_000 - exact * rate == (g - total * rate) * 100_000 + e * rate by {
      assert e * rate == total * 100_000 * rate - exact * rate;
    }
    assert -(m * Abs(rate)) <= e * rate <= m * Abs(rate) by {
      if rate >= 0 {
        assert e * rate <= m * rate && e * rate >= -m * rate;
      } else {
        assert e * rate == -e * -rate && -e * -rate <= m * -rate && -e * -rate >= -m * -rate;
      }
    }
  }

  // ---- The entry, line by line ----

  /** The sales line of a code that occurs, and its VAT line unless that is zero. */
  function CodePart(d: Document, c: Code, sales: string, output: string, name: string): seq<Line> {
    if c !in CodesOf(d) then []
    else
      var ps, sek := Prices(d.items), Converter(RateOf(d));
      var net, vat := NetSek(ps, sek, c), VatSek(ps, sek, c);
      [Line(sales, 0, net, name)] + if vat == 0 then [] else [Line(output, 0, vat, "")]
  }

  /** The entry debits 1510 and then credits, rate by rate, sales and output VAT; sales
      within the EU and outside it are credited without VAT. */
  lemma {:induction false} EntryLinesAre(d: Document)
    ensures EntryLines(d) == [Line("1510", Receivable(d), 0, "")]
                             + (CodePart(d, SE25, "3001", "2611", "SE25") + CodePart(d, SE12, "3002", "2621", "SE12")
                                + CodePart(d, SE06, "3003", "2631", "SE06") + CodePart(d, RCEU, "3308", "", "RCEU")
                                + CodePart(d, EXP, "3305", "", "EXP"))
  {
    SwedishCodes(d);
    var first: seq<Code> := [SE25, SE12, SE06];
    assert first + [RCEU] + [EXP] == CODE_ORDER;
    NextCode(d, first, RCEU, "3308", "", "RCEU");
    NextCode(d, first + [RCEU], EXP, "3305", "", "EXP");
  }

  lemma {:induction false} SwedishCodes(d: Document)
    ensures SalesLines(Prices(d.items), Converter(RateOf(d)), [SE25, SE12, SE06])
            == CodePart(d, SE25, "3001", "2611", "SE25") + CodePart(d, SE12, "3002", "2621", "SE12")
               + CodePart(d, SE06, "3003", "2631", "SE06")
  {
    NextCode(d, [], SE25, "3001", "2611", "SE25");
    assert [] + [SE25] == [SE25] && [] + CodePart(d, SE25, "3001", "2611", "SE25")
        == CodePart(d, SE25, "3001", "2611", "SE25");
    assert [SE25] + [SE12] == [SE25, SE12] && [SE25, SE12] + [SE06] == [SE25, SE12, SE06];
    NextCode(d, [SE25], SE12, "3002", "2621", "SE12");
    NextCode(d, [SE25, SE12], SE06, "3003", "2631", "SE06");
  }

  lemma {:induction false} NextCode(d: Document, codes: seq<Code>, c: Code, sales: string, output: string, name: string)
    requires SalesAccount(c) == sales && OutputAccount(Rate(c)) == output && CodeName(c) == name
    ensures SalesLines(Prices(d.items), Converter(RateOf(d)), codes + [c])
            == SalesLines(Prices(d.items), Converter(RateOf(d)), codes) + CodePart(d, c, sales, output, name)
  {
    assert (codes + [c])[..|codes|] == codes;
  }

  /** Sales that carry no Swedish VAT come without a VAT line. */
  lemma {:induction false} NoVatAbroad(d: Document, c: Code)
    requires c == RCEU || c == EXP
    ensures VatSek(Prices(d.items), Converter(RateOf(d)), c) == 0
  {
    NoVatFor(d.items, c);
    NothingRounds(RateOf(d), PPM);
  }

  lemma {:induction false} NothingRounds(x: int, d: int)
    requires 0 < d <= 1_000_000
    ensures Rounded(0 * x, d) == Rounded(x * 0, d) == 0
  {
    assert 0 * x == x * 0 == 0;
  }

  lemma {:induction false} NoVatFor(items: seq<Item>, c: Code)
    requires c == RCEU || c == EXP
    ensures VatFor(Prices(items), c) == 0
  {
    if items != [] {
      var n := |items| - 1;
      NoVatFor(items[..n], c);
      NoVatOn(items[n], c);
      VatSnoc(Prices(items[..n]), PriceOf(items[n]), c);
    }
  }

  lemma {:induction false} NoVatOn(i: Item, c: Code)
    requires c == RCEU || c == EXP
    ensures PriceOf(i).code == c ==> PriceOf(i).vat == 0
  {
    NothingRounds(ItemNet(i), 100);
  }

  lemma {:induction false} VatSnoc(ps: seq<Priced>, p: Priced, c: Code)
    ensures VatFor(ps + [p], c) == VatFor(ps, c) + if p.code == c then p.vat else 0
  {
    assert (ps + [p])[..|ps|] == ps;
  }
}
