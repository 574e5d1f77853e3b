/** Swedish VAT (moms): rounding, the account mapping, purchase entries and the
    declaration boxes, in int64 arithmetic. */
module Moms {
  import opened Prelude
  import opened Ledger

  // ---- Rounding half away from zero ----

  /** n moved half a unit away from zero. */
  function Away(n: int, d: int): int {
    if n >= 0 then n + d / 2 else n - d / 2
  }

  /** The product n over d, rounded to the nearest integer with halves away from zero:
      n wraps, and so does the half added to it. */
  function Rounded(n: int, d: int): int
    requires d > 0
  {
    var m := Wrap(n);
    TruncDiv(Wrap(Away(m, d)), d)
  }

  lemma {:induction false} DivBounds(a: int, d: int)
    requires d > 0
    ensures a >= 0 ==> a - d < TruncDiv(a, d) * d <= a
    ensures a <= 0 ==> a <= TruncDiv(a, d) * d < a + d
  {
    var m := Abs(a);
    assert m == m / d * d + m % d;
    assert (-(m / d)) * d == -(m / d * d);
  }

  /** The nearest integer to n / d, halves away from zero. */
  function Nearest(n: int, d: int): int
    requires d > 0
  {
    TruncDiv(Away(n, d), d)
  }

  lemma {:induction false} NearestIsNearest(n: int, d: int)
    requires d > 0 && d % 2 == 0
    ensures n >= 0 ==> -d < 2 * (Nearest(n, d) * d - n) <= d
    ensures n <= 0 ==> -d <= 2 * (Nearest(n, d) * d - n) < d
    ensures n >= 0 ==> Nearest(n, d) >= 0
  {
    DivBounds(Away(n, d), d);
    var q := Nearest(n, d);
    assert 2 * (q * d - n) == 2 * (q * d) - 2 * n;
    if n >= 0 {
      NonNegative(Away(n, d), d);
    }
  }

  lemma {:induction false} NonNegative(x: nat, d: int)
    requires d > 0
    ensures TruncDiv(x, d) >= 0
  {
  }

  lemma {:induction false} SameQuotient(x: int, y: int, d: int)
    requires d > 0 && TruncDiv(x, d) == TruncDiv(y, d)
    ensures -2 * d < x - y < 2 * d
    ensures (x >= 0 && y >= 0) || (x <= 0 && y <= 0) ==> -d < x - y < d
  {
    DivBounds(x, d);
    DivBounds(y, d);
  }

  /** What is divided is off by a multiple of 2^64, and by d if wrapping also turned
      the sign of n. */
  lemma {:induction false} WrappedAway(n: int, d: int) returns (j: int, turned: int)
    requires d > 0 && d % 2 == 0
    ensures Away(n, d) - Wrap(Away(Wrap(n), d)) == j * TWO_64 + turned
    ensures turned == if (n >= 0) == (Wrap(n) >= 0) then 0 else if n >= 0 then d else -d
  {
    var k := WrapIs(n);
    var l := WrapIs(Away(Wrap(n), d));
    j := k + l;
    turned := if (n >= 0) == (Wrap(n) >= 0) then 0 else if n >= 0 then d else -d;
    assert j * TWO_64 == k * TWO_64 + l * TWO_64;
    assert d / 2 + d / 2 == d;
  }

  /** Rounding gives the nearest integer exactly when neither the product nor the half
      added to it leaves int64. */
  lemma {:induction false} RoundedIsNearest(n: int, d: int)
    requires 0 < d <= 1_000_000 && d % 2 == 0
    ensures Rounded(n, d) == Nearest(n, d) <==> Fits(Away(n, d))
  {
    var x, y := Wrap(Away(Wrap(n), d)), Away(n, d);
    var j, turned := WrappedAway(n, d);
    assert Rounded(n, d) == TruncDiv(x, d);
    if TruncDiv(x, d) == TruncDiv(y, d) {
      SameQuotient(x, y, d);
      assert -TWO_64 < j * TWO_64 + turned < TWO_64;
      assert j == 0;
      TurnedSigns(n, d, turned);
    }
  }

  /** In range, rounding gives the nearest integer, and of two the one further from zero. */
  lemma {:induction false} RoundedWithin(n: int, d: int)
    requires 0 < d <= 1_000_000 && d % 2 == 0 && MIN_INT64 + d / 2 <= n <= MAX_INT64 - d / 2
    ensures n >= 0 ==> -d < 2 * (Rounded(n, d) * d - n) <= d
    ensures n <= 0 ==> -d <= 2 * (Rounded(n, d) * d - n) < d
  {
    RoundedIsNearest(n, d);
    NearestIsNearest(n, d);
  }

  /** An argument one unit off, on the same side of zero, has another quotient. */
  lemma {:induction false} TurnedSigns(n: int, d: int, turned: int)
    requires 0 < d <= 1_000_000 && d % 2 == 0
    requires Away(n, d) - Wrap(Away(Wrap(n), d)) == turned
    requires turned == if (n >= 0) == (Wrap(n) >= 0) then 0 else if n >= 0 then d else -d
    ensures turned != 0 ==> (n >= 0 ==> Wrap(Away(Wrap(n), d)) >= 0) && (n < 0 ==> Wrap(Away(Wrap(n), d)) <= 0)
  {
    assert turned != 0 ==> !Fits(n);
  }

  lemma {:induction false} RoundedFits(n: int, d: int)
    requires d > 0
    ensures Fits(Rounded(n, d))
  {
    var m := Wrap(n);
    QuotientFits(Wrap(Away(m, d)), d);
  }

  lemma {:induction false} QuotientFits(x: int, d: int)
    requires d > 0 && Fits(x)
    ensures Fits(TruncDiv(x, d))
  {
    var q := TruncDiv(x, d);
    DivBounds(x, d);
    ProductGrows(q, d);
  }

  lemma {:induction false} ProductGrows(q: int, d: int)
    requires d > 0
    ensures q >= 0 ==> q * d >= q
    ensures q <= 0 ==> q * d <= q
  {
    assert q * d == q + q * (d - 1);
  }

  lemma {:induction false} RoundedExact(x: int, d: int)
    requires 0 < d <= 1_000_000 && d % 2 == 0 && Fits(Away(x * d, d))
    ensures Rounded(x * d, d) == x
  {
    RoundedIsNearest(x * d, d);
    NearestIsNearest(x * d, d);
    NearestUnique(Rounded(x * d, d), x, d);
  }

  lemma {:induction false} NearestUnique(a: int, b: int, d: int)
    requires d > 0 && -d <= 2 * (a * d - b * d) <= d
    ensures a == b
  {
    assert a * d - b * d == (a - b) * d;
    if a > b {
      Grows(a - b, d);
    } else if a < b {
      Grows(b - a, d);
    }
  }

  lemma {:induction false} Grows(k: int, d: int)
    requires k >= 1 && d > 0
    ensures k * d >= d
  {
  }

  // ---- Sales codes ----

  datatype Code = SE25 | SE12 | SE06 | RCEU | EXP | OtherCode(name: string)

  function Rate(c: Code): int {
    match c case SE25 => 25 case SE12 => 12 case SE06 => 6 case _ => 0
  }

  function Vat(net: int, rate: int): int {
    Rounded(net * rate, 100)
  }

  /** VAT is the net times the percentage, to the nearest öre. */
  lemma {:induction false} VatWithin(net: int, rate: int)
    requires MIN_INT64 + 50 <= net * rate <= MAX_INT64 - 50
    ensures net * rate >= 0 ==> -100 < 2 * (Vat(net, rate) * 100 - net * rate) <= 100
    ensures net * rate <= 0 ==> -100 <= 2 * (Vat(net, rate) * 100 - net * rate) < 100
  {
    RoundedWithin(net * rate, 100);
  }

  function OutputAccount(rate: int): string {
    if rate == 25 then "2611" else if rate == 12 then "2621" else if rate == 6 then "2631" else ""
  }

  function SalesAccount(c: Code): string {
    match c
    case SE25 => "3001"
    case SE12 => "3002"
    case SE06 => "3003"
    case RCEU => "3308"
    case EXP => "3305"
    case OtherCode(_) => ""
  }

  // ---- Purchases ----

  datatype PurchaseCode = PD25 | PD12 | PD06 | PEU | PIMP | PNONE

  /** The rate a domestic purchase deducts. */
  function DomesticRate(c: PurchaseCode): Option<int> {
    match c case PD25 => Some(25) case PD12 => Some(12) case PD06 => Some(6) case _ => None
  }

  function PurchaseLines(cost: string, net: int, c: PurchaseCode): seq<Line> {
    if DomesticRate(c).Some? then
      var vat := Vat(net, DomesticRate(c).value);
      [Debit(cost, net), Debit("2640", vat), Credit("2440", Plus64(net, vat))]
    else if c == PEU || c == PIMP then
      var vat := Vat(net, 25);
      [Debit(if c == PEU then "4535" else "4531", net), Credit("2440", net), Credit("2614", vat), Debit("2645", vat)]
    else
      [Debit(cost, net), Credit("2440", net)]
  }

  function Payable(net: int, c: PurchaseCode): int {
    if DomesticRate(c).Some? then Plus64(net, Vat(net, DomesticRate(c).value)) else net
  }

  predicate IsReverseCharge(c: PurchaseCode) {
    c == PEU || c == PIMP
  }

  /** The VAT line of a purchase: deducted, or declared and deducted at once. */
  function PurchaseVat(net: int, c: PurchaseCode): int {
    if DomesticRate(c).Some? then Vat(net, DomesticRate(c).value) else if IsReverseCharge(c) then Vat(net, 25) else 0
  }

  /** A purchase owes exactly Payable on 2440, less the net if the cost is booked there
      too; it balances exactly when that sum stays in int64. */
  lemma {:induction false} PurchaseBooksPayable(cost: string, net: int, c: PurchaseCode)
    requires Fits(net)
    ensures LinesFit(PurchaseLines(cost, net, c))
    ensures TotalDebit(PurchaseLines(cost, net, c)) == net + PurchaseVat(net, c)
    ensures TotalDebit(PurchaseLines(cost, net, c)) == TotalCredit(PurchaseLines(cost, net, c)) <==>
            DomesticRate(c).None? || Fits(net + PurchaseVat(net, c))
    ensures NetOf(PurchaseLines(cost, net, c), One("2440"))
            == -Payable(net, c) + if cost == "2440" && !IsReverseCharge(c) then net else 0
  {
    var ls := PurchaseLines(cost, net, c);
    RoundedFits(net * (if DomesticRate(c).Some? then DomesticRate(c).value else 25), 100);
    if |ls| == 2 {
      NetOfTwo(ls[0], ls[1], One("2440"));
    } else if |ls| == 3 {
      NetOfThree(ls[0], ls[1], ls[2], One("2440"));
    } else {
      NetOfFour(ls[0], ls[1], ls[2], ls[3], One("2440"));
    }
  }

  /** A purchase of a positive net can be posted exactly when its VAT, as computed,
      comes to something and the total stays in int64. The smallest amounts are
      refused for their empty VAT line. */
  lemma {:induction false} PurchasePostableIff(cost: string, net: int, c: PurchaseCode)
    requires 0 < net <= MAX_INT64 && cost != ""
    ensures Postable(PurchaseLines(cost, net, c)) <==>
              (c != PNONE ==> PurchaseVat(net, c) > 0) && net + PurchaseVat(net, c) <= MAX_INT64
  {
    var ls := PurchaseLines(cost, net, c);
    PurchaseBooksPayable(cost, net, c);
    if Postable(ls) && c != PNONE {
      assert OneSided(ls[if DomesticRate(c).Some? then 1 else 2]);
    }
  }

  /** What a purchase books, treatment by treatment: the deducted VAT on 2640; for
      services from abroad the cost on 4535 or 4531 and 25 percent on both 2614 and 2645. */
  lemma {:induction false} PurchaseLinesAre(cost: string, net: int)
    ensures PurchaseLines(cost, net, PD25)
         == [Line(cost, net, 0, ""), Line("2640", Vat(net, 25), 0, ""),
             Line("2440", 0, Plus64(net, Vat(net, 25)), "")]
    ensures PurchaseLines(cost, net, PD12)
         == [Line(cost, net, 0, ""), Line("2640", Vat(net, 12), 0, ""),
             Line("2440", 0, Plus64(net, Vat(net, 12)), "")]
    ensures PurchaseLines(cost, net, PD06)
         == [Line(cost, net, 0, ""), Line("2640", Vat(net, 6), 0, ""),
             Line("2440", 0, Plus64(net, Vat(net, 6)), "")]
    ensures PurchaseLines(cost, net, PEU)
         == [Line("4535", net, 0, ""), Line("2440", 0, net, ""),
             Line("2614", 0, Vat(net, 25), ""), Line("2645", Vat(net, 25), 0, "")]
    ensures PurchaseLines(cost, net, PIMP)
         == [Line("4531", net, 0, ""), Line("2440", 0, net, ""),
             Line("2614", 0, Vat(net, 25), ""), Line("2645", Vat(net, 25), 0, "")]
    ensures PurchaseLines(cost, net, PNONE) == [Line(cost, net, 0, ""), Line("2440", 0, net, "")]
  {
  }

  /** The debt is the net plus the VAT deducted, and the bare net where none is charged. */
  lemma {:induction false} PayableIs(net: int)
    ensures Payable(net, PD25) == Plus64(net, Vat(net, 25))
    ensures Payable(net, PD12) == Plus64(net, Vat(net, 12))
    ensures Payable(net, PD06) == Plus64(net, Vat(net, 6))
    ensures Payable(net, PEU) == Payable(net, PIMP) == Payable(net, PNONE) == net
  {
  }

  // ---- The declaration ----

  datatype Box = Box05 | Box10 | Box11 | Box12 | Box21 | Box22 | Box30 | Box39 | Box48 | Box49

  function Get(bal: map<string, int>, a: string): int {
    if a in bal then bal[a] else 0
  }

  /** A box as a sum of account balances, over unbounded integers. */
  function BoxOf(read: string -> int, b: Box): int {
    match b
    case Box05 => -read("3001") - read("3002") - read("3003")
    case Box10 => -read("2611")
    case Box11 => -read("2621")
    case Box12 => -read("2631")
    case Box21 => read("4535")
    case Box22 => read("4531")
    case Box30 => -read("2614") - read("2615")
    case Box39 => -read("3308")
    case Box48 => read("2640") + read("2641") + read("2645")
    case Box49 =>
      -read("2611") - read("2621") - read("2631") + (-read("2614") - read("2615"))
      - (read("2640") + read("2641") + read("2645"))
  }

  /** A box of the report, in int64. */
  function Report(bal: map<string, int>, b: Box): int {
    Wrap(BoxOf(a => Get(bal, a), b))
  }

  /** The accounts that count towards a box, and those that count against it. */
  predicate Adds(b: Box, a: string) {
    match b
    case Box21 => a == "4535"
    case Box22 => a == "4531"
    case Box48 => a == "2640" || a == "2641" || a == "2645"
    case _ => false
  }

  predicate Takes(b: Box, a: string) {
    match b
    case Box05 => a == "3001" || a == "3002" || a == "3003"
    case Box10 => a == "2611"
    case Box11 => a == "2621"
    case Box12 => a == "2631"
    case Box30 => a == "2614" || a == "2615"
    case Box39 => a == "3308"
    case Box49 => IsVatAccount(a)
    case _ => false
  }

  /** The accounts that feed box 49. */
  predicate IsVatAccount(a: string) {
    a == "2611" || a == "2621" || a == "2631" || a == "2614" || a == "2615" || a == "2640" || a == "2641" || a == "2645"
  }

  function BoxEffect(l: Line, b: Box): int {
    if Adds(b, l.account) then l.debit - l.credit else if Takes(b, l.account) then l.credit - l.debit else 0
  }

  /** What the postings themselves put in a box. */
  function Boxed(lines: seq<Line>, b: Box): int {
    if lines == [] then 0 else Boxed(lines[..|lines| - 1], b) + BoxEffect(lines[|lines| - 1], b)
  }

  /** Which accounts a posting must be on to show in a box, and with which sign. */
  lemma {:induction false} BoxesRead(l: Line)
    ensures var up, a := l.debit - l.credit, l.account;
            && BoxEffect(l, Box05) == (if a in {"3001", "3002", "3003"} then -up else 0)
            && BoxEffect(l, Box10) == (if a == "2611" then -up else 0)
            && BoxEffect(l, Box11) == (if a == "2621" then -up else 0)
            && BoxEffect(l, Box12) == (if a == "2631" then -up else 0)
            && BoxEffect(l, Box21) == (if a == "4535" then up else 0)
            && BoxEffect(l, Box22) == (if a == "4531" then up else 0)
            && BoxEffect(l, Box30) == (if a in {"2614", "2615"} then -up else 0)
            && BoxEffect(l, Box39) == (if a == "3308" then -up else 0)
            && BoxEffect(l, Box48) == (if a in {"2640", "2641", "2645"} then up else 0)
            && BoxEffect(l, Box49)
               == BoxEffect(l, Box10) + BoxEffect(l, Box11) + BoxEffect(l, Box12) + BoxEffect(l, Box30)
                  - BoxEffect(l, Box48)
  {
  }

  lemma {:induction false} BoxedIs(lines: seq<Line>, b: Box)
    ensures Boxed(lines, b) == BoxOf(a => NetOf(lines, One(a)), b)
  {
    if lines != [] {
      var n := |lines| - 1;
      BoxedIs(lines[..n], b);
      BoxStep(a => NetOf(lines[..n], One(a)), a => NetOf(lines, One(a)), lines[n], b);
    }
  }

  lemma {:induction false} BoxStep(before: string -> int, after: string -> int, l: Line, b: Box)
    requires forall a :: after(a) == before(a) + if l.account == a then l.debit - l.credit else 0
    ensures BoxOf(after, b) == BoxOf(before, b) + BoxEffect(l, b)
  {
  }

  /** The balance map shows the net of the lines on every account, in int64. */
  ghost predicate Reflects(bal: map<string, int>, lines: seq<Line>) {
    forall a {:trigger NetOf(lines, One(a))} :: Same(Get(bal, a), NetOf(lines, One(a)))
  }

  lemma {:induction false} Negation(x: int, y: int)
    requires Same(x, y)
    ensures Same(-x, -y)
  {
    SameSum(0, 0, x, y);
  }

  lemma {:induction false} ThreeSame(x: int, x': int, y: int, y': int, z: int, z': int)
    requires Same(x, x') && Same(y, y') && Same(z, z')
    ensures Same(x + y + z, x' + y' + z') && Same(-x - y - z, -x' - y' - z')
  {
    SameSum(x, x', y, y');
    SameSum(x + y, x' + y', z, z');
    Negation(x + y + z, x' + y' + z');
  }

  lemma {:induction false} SameBox(r: string -> int, n: string -> int, b: Box)
    requires (forall a :: Same(r(a), n(a))) && b != Box49
    ensures Same(BoxOf(r, b), BoxOf(n, b))
  {
    match b {
      case Box05 => ThreeSame(r("3001"), n("3001"), r("3002"), n("3002"), r("3003"), n("3003"));
      case Box10 => Negation(r("2611"), n("2611"));
      case Box11 => Negation(r("2621"), n("2621"));
      case Box12 => Negation(r("2631"), n("2631"));
      case Box30 => ThreeSame(r("2614"), n("2614"), r("2615"), n("2615"), 0, 0);
      case Box39 => Negation(r("3308"), n("3308"));
      case Box48 => ThreeSame(r("2640"), n("2640"), r("2641"), n("2641"), r("2645"), n("2645"));
      case _ =>
    }
  }

  lemma {:induction false} FiveSame(a: int, b: int, c: int, d: int, e: int)
    ensures Wrap(Wrap(a) + Wrap(b) + Wrap(c) + Wrap(d) - Wrap(e)) == Wrap(a + b + c + d - e)
  {
    SameWraps(a, 0); SameWraps(b, 0); SameWraps(c, 0); SameWraps(d, 0); SameWraps(e, 0);
    ThreeSame(Wrap(a), a, Wrap(b), b, Wrap(c), c);
    SameSum(Wrap(a) + Wrap(b) + Wrap(c), a + b + c, Wrap(d), d);
    SameSum(Wrap(a) + Wrap(b) + Wrap(c) + Wrap(d), a + b + c + d, Wrap(e), e);
    SameWraps(Wrap(a) + Wrap(b) + Wrap(c) + Wrap(d) - Wrap(e), a + b + c + d - e);
  }

  lemma {:induction false} SameTotal(r: string -> int, n: string -> int)
    requires forall a :: Same(r(a), n(a))
    ensures Same(BoxOf(r, Box49), BoxOf(n, Box49))
  {
    ThreeSame(r("2611"), n("2611"), r("2621"), n("2621"), r("2631"), n("2631"));
    ThreeSame(r("2614"), n("2614"), r("2615"), n("2615"), 0, 0);
    ThreeSame(r("2640"), n("2640"), r("2641"), n("2641"), r("2645"), n("2645"));
    SameSum(-r("2611") - r("2621") - r("2631"), -n("2611") - n("2621") - n("2631"),
            -r("2614") - r("2615"), -n("2614") - n("2615"));
    SameSum(-r("2611") - r("2621") - r("2631") + (-r("2614") - r("2615")),
            -n("2611") - n("2621") - n("2631") + (-n("2614") - n("2615")),
            r("2640") + r("2641") + r("2645"), n("2640") + n("2641") + n("2645"));
  }

  /** Box 49 is the int64 sum of the output boxes less the input box. */
  lemma {:induction false} ReportTotals(bal: map<string, int>)
    ensures Report(bal, Box49)
            == Wrap(Report(bal, Box10) + Report(bal, Box11) + Report(bal, Box12)
                    + Report(bal, Box30) - Report(bal, Box48))
  {
    var r := a => Get(bal, a);
    FiveSame(BoxOf(r, Box10), BoxOf(r, Box11), BoxOf(r, Box12), BoxOf(r, Box30), BoxOf(r, Box48));
  }

  /** Every box of the report is that of the postings, in int64. */
  lemma {:induction false} ReportReads(bal: map<string, int>, lines: seq<Line>, b: Box)
    requires Reflects(bal, lines)
    ensures Report(bal, b) == Wrap(Boxed(lines, b))
  {
    var r, n := a => Get(bal, a), a => NetOf(lines, One(a));
    forall a: string ensures Same(r(a), n(a)) {
      assert n(a) == NetOf(lines, One(a));
    }
    BoxedIs(lines, b);
    if b == Box49 {
      SameTotal(r, n);
    } else {
      SameBox(r, n, b);
    }
    SameWraps(BoxOf(r, b), BoxOf(n, b));
  }

  lemma {:induction false} BoxesAdd(xs: seq<Line>, ys: seq<Line>, b: Box)
    ensures Boxed(xs + ys, b) == Boxed(xs, b) + Boxed(ys, b)
  {
    if ys == [] {
      assert xs + ys == xs;
    } else {
      var n := |ys| - 1;
      BoxesAdd(xs, ys[..n], b);
      assert (xs + ys)[..|xs + ys| - 1] == xs + ys[..n];
    }
  }

  /** Reports add up: each box for two sets of postings together is the int64 sum of
      the boxes for each. */
  lemma {:induction false} ReportAdds(
    m: map<string, int>, m1: map<string, int>, m2: map<string, int>, xs: seq<Line>, ys: seq<Line>, b: Box)
    requires Reflects(m, xs + ys) && Reflects(m1, xs) && Reflects(m2, ys)
    ensures Report(m, b) == Plus64(Report(m1, b), Report(m2, b))
  {
    ReportReads(m, xs + ys, b);
    ReportReads(m1, xs, b);
    ReportReads(m2, ys, b);
    BoxesAdd(xs, ys, b);
    PlusWraps(Boxed(xs, b), Boxed(ys, b), Report(m1, b), Report(m2, b));
  }
}
