/** Priced invoice lines added up per VAT code, converted to SEK by a given function,
    and turned into an entry. Sums wrap in int64. */
module Aggregates {
  import opened Prelude
  import opened Ledger
  import opened Moms

  /** An invoice line with its net amount and its VAT. */
  datatype Priced = Priced(code: Code, net: int, vat: int)

  // ---- Per code: the sums themselves, which the code holds in int64 ----

  function NetFor(ps: seq<Priced>, c: Code): int {
    if ps == [] then 0
    else NetFor(ps[..|ps| - 1], c) + if ps[|ps| - 1].code == c then ps[|ps| - 1].net else 0
  }

  function VatFor(ps: seq<Priced>, c: Code): int {
    if ps == [] then 0
    else VatFor(ps[..|ps| - 1], c) + if ps[|ps| - 1].code == c then ps[|ps| - 1].vat else 0
  }

  function Codes(ps: seq<Priced>): set<Code> {
    if ps == [] then {} else Codes(ps[..|ps| - 1]) + {ps[|ps| - 1].code}
  }

  function Total(ps: seq<Priced>): int {
    if ps == [] then 0 else Total(ps[..|ps| - 1]) + ps[|ps| - 1].net + ps[|ps| - 1].vat
  }

  datatype Sums = Sums(net: int, vat: int)

  function Add(s: Sums, p: Priced): Sums {
    Sums(Plus64(s.net, p.net), Plus64(s.vat, p.vat))
  }

  function At(sums: map<Code, Sums>, c: Code): Sums {
    if c in sums then sums[c] else Sums(0, 0)
  }

  ghost predicate Holds(sums: map<Code, Sums>, ps: seq<Priced>) {
    sums.Keys == Codes(ps) && forall c :: c in sums ==> sums[c] == Sums(Wrap(NetFor(ps, c)), Wrap(VatFor(ps, c)))
  }

  /** The map both GrossSEK and VerificationLines start from. */
  method Aggregate(ps: seq<Priced>) returns (sums: map<Code, Sums>)
    ensures Holds(sums, ps)
  {
    sums := map[];
    for i := 0 to |ps|
      invariant Holds(sums, ps[..i])
    {
      assert ps[..i + 1] == ps[..i] + [ps[i]];
      HoldsSnoc(sums, ps[..i], ps[i]);
      sums := sums[ps[i].code := Add(At(sums, ps[i].code), ps[i])];
    }
    assert ps[..|ps|] == ps;
  }

  lemma {:induction false} HoldsSnoc(sums: map<Code, Sums>, ps: seq<Priced>, p: Priced)
    requires Holds(sums, ps)
    ensures Holds(sums[p.code := Add(At(sums, p.code), p)], ps + [p])
  {
    assert (ps + [p])[..|ps|] == ps;
    NothingFor(ps, p.code);
    WrapAdd(NetFor(ps, p.code), p.net);
    WrapAdd(VatFor(ps, p.code), p.vat);
    assert At(sums, p.code) == Sums(Wrap(NetFor(ps, p.code)), Wrap(VatFor(ps, p.code)));
  }

  lemma {:induction false} NothingFor(ps: seq<Priced>, c: Code)
    ensures c !in Codes(ps) ==> NetFor(ps, c) == 0 && VatFor(ps, c) == 0
  {
    if ps != [] {
      NothingFor(ps[..|ps| - 1], c);
    }
  }

  // ---- Sums over the codes, in any order ----

  function NetSek(ps: seq<Priced>, sek: int -> int, c: Code): int {
    sek(Wrap(NetFor(ps, c)))
  }

  function VatSek(ps: seq<Priced>, sek: int -> int, c: Code): int {
    sek(Wrap(VatFor(ps, c)))
  }

  /** What a code contributes to the receivable. */
  function CodeShare(ps: seq<Priced>, sek: int -> int, c: Code): int {
    NetSek(ps, sek, c) + VatSek(ps, sek, c)
  }

  ghost function ShareAt(ps: seq<Priced>, sek: int -> int): Code -> int {
    c => CodeShare(ps, sek, c)
  }

  ghost function SumOver(s: set<Code>, f: Code -> int): int {
    if s == {} then 0
    else
      var c :| c in s;
      f(c) + SumOver(s - {c}, f)
  }

  lemma {:induction false} SumUnfold(s: set<Code>, f: Code -> int) returns (d: Code)
    requires s != {}
    ensures d in s && SumOver(s, f) == f(d) + SumOver(s - {d}, f)
  {
    d :| d in s && SumOver(s, f) == f(d) + SumOver(s - {d}, f);
  }

  lemma {:induction false} Swap(s: set<Code>, c: Code, d: Code)
    ensures s - {c} - {d} == s - {d} - {c}
  {
  }

  /** Any code may be taken first. */
  lemma {:induction false} SumTake(s: set<Code>, f: Code -> int, c: Code)
    requires c in s
    ensures SumOver(s, f) == f(c) + SumOver(s - {c}, f)
    decreases |s|
  {
    var d := SumUnfold(s, f);
    if d != c {
      SumTake(s - {d}, f, c);
      SumTake(s - {c}, f, d);
      Swap(s, c, d);
    }
  }

  /** f gives the share of every code in the map. */
  ghost predicate Shares(f: Code -> int, sums: map<Code, Sums>, sek: int -> int) {
    forall c :: c in sums ==> f(c) == Converted(sums[c], sek)
  }

  function Converted(s: Sums, sek: int -> int): int {
    sek(s.net) + sek(s.vat)
  }

  /** The map is walked in no fixed order. */
  method SumShares(sums: map<Code, Sums>, sek: int -> int, ghost f: Code -> int) returns (g: int)
    requires Shares(f, sums, sek)
    ensures g == Wrap(SumOver(sums.Keys, f))
  {
    g := 0;
    var left := sums.Keys;
    ghost var total, turns := SumOver(left, f), 0;
    while left != {}
      invariant left <= sums.Keys && Fits(g)
      invariant total == g + SumOver(left, f) + turns * TWO_64
      decreases |left|
    {
      var c :| c in left;
      SumTake(left, f, c);
      var share := Converted(sums[c], sek);
      assert share == f(c);
      ghost var more := WrappedTwice(g, share);
      g := Plus64(g, Wrap(share));
      left, turns := left - {c}, turns + more;
    }
    WrapUnique(total, g, turns);
  }

  lemma {:induction false} HeldShares(sums: map<Code, Sums>, ps: seq<Priced>, sek: int -> int)
    requires Holds(sums, ps)
    ensures Shares(ShareAt(ps, sek), sums, sek)
  {
  }

  // ---- The entry ----

  const CODE_ORDER: seq<Code> := [SE25, SE12, SE06, RCEU, EXP]

  const KNOWN: set<Code> := {SE25, SE12, SE06, RCEU, EXP}

  function CodeName(c: Code): string {
    match c
    case SE25 => "SE25"
    case SE12 => "SE12"
    case SE06 => "SE06"
    case RCEU => "RCEU"
    case EXP => "EXP"
    case OtherCode(s) => s
  }

  function CodeLines(ps: seq<Priced>, sek: int -> int, c: Code): seq<Line> {
    if c !in Codes(ps) then []
    else
      var net, vat := NetSek(ps, sek, c), VatSek(ps, sek, c);
      [Line(SalesAccount(c), 0, net, CodeName(c))] + if vat == 0 then [] else [Credit(OutputAccount(Rate(c)), vat)]
  }

  function SalesLines(ps: seq<Priced>, sek: int -> int, codes: seq<Code>): seq<Line> {
    if codes == [] then []
    else SalesLines(ps, sek, codes[..|codes| - 1]) + CodeLines(ps, sek, codes[|codes| - 1])
  }

  function Booked(ps: seq<Priced>, sek: int -> int, codes: seq<Code>): int {
    if codes == [] then 0
    else Booked(ps, sek, codes[..|codes| - 1]) + ShareIn(ps, sek, codes[|codes| - 1])
  }

  /** A code that does not occur contributes nothing. */
  function ShareIn(ps: seq<Priced>, sek: int -> int, c: Code): int {
    if c in Codes(ps) then CodeShare(ps, sek, c) else 0
  }

  function Entry(ps: seq<Priced>, sek: int -> int): seq<Line> {
    [Debit("1510", Wrap(Booked(ps, sek, CODE_ORDER)))] + SalesLines(ps, sek, CODE_ORDER)
  }

  /** The lines of one code, and their sum. */
  method BuildCode(sums: map<Code, Sums>, ghost ps: seq<Priced>, sek: int -> int, c: Code)
    returns (lines: seq<Line>, share: int)
    requires Holds(sums, ps)
    ensures lines == CodeLines(ps, sek, c)
    ensures share == Wrap(ShareIn(ps, sek, c))
  {
    if c !in sums {
      return [], 0;
    }
    var netSek, vatSek := sek(sums[c].net), sek(sums[c].vat);
    lines := [Line(SalesAccount(c), 0, netSek, CodeName(c))];
    if vatSek != 0 {
      lines := lines + [Credit(OutputAccount(Rate(c)), vatSek)];
    } else {
      assert lines + [] == lines;
    }
    share := Wrap(netSek + vatSek);
  }

  method BuildEntry(sums: map<Code, Sums>, ghost ps: seq<Priced>, sek: int -> int) returns (lines: seq<Line>)
    requires Holds(sums, ps)
    ensures lines == Entry(ps, sek)
  {
    var gross := 0;
    var sales: seq<Line> := [];
    ghost var turns := 0;
    for i := 0 to |CODE_ORDER|
      invariant sales == SalesLines(ps, sek, CODE_ORDER[..i])
      invariant Fits(gross) && Booked(ps, sek, CODE_ORDER[..i]) == gross + turns * TWO_64
    {
      assert CODE_ORDER[..i + 1][..i] == CODE_ORDER[..i];
      var more, share := BuildCode(sums, ps, sek, CODE_ORDER[i]);
      ghost var k := WrappedTwice(gross, ShareIn(ps, sek, CODE_ORDER[i]));
      sales, gross, turns := sales + more, Plus64(gross, share), turns + k;
    }
    assert CODE_ORDER[..|CODE_ORDER|] == CODE_ORDER;
    WrapUnique(Booked(ps, sek, CODE_ORDER), gross, turns);
    lines := [Debit("1510", gross)] + sales;
  }

  lemma {:induction false} SalesFit(ps: seq<Priced>, sek: int -> int, codes: seq<Code>)
    requires forall x :: Fits(sek(x))
    ensures LinesFit(SalesLines(ps, sek, codes))
  {
    if codes != [] {
      SalesFit(ps, sek, codes[..|codes| - 1]);
    }
  }

  // ---- What the entry adds up to ----

  lemma {:induction false} CodeTotals(ps: seq<Priced>, sek: int -> int, c: Code)
    ensures TotalDebit(CodeLines(ps, sek, c)) == 0
    ensures TotalCredit(CodeLines(ps, sek, c)) == ShareIn(ps, sek, c)
  {
    if c in Codes(ps) {
      var ls := CodeLines(ps, sek, c);
      if |ls| == 1 {
        NetOfOne(ls[0], All);
      } else {
        NetOfTwo(ls[0], ls[1], All);
      }
    }
  }

  lemma {:induction false} SalesTotals(ps: seq<Priced>, sek: int -> int, codes: seq<Code>)
    ensures TotalDebit(SalesLines(ps, sek, codes)) == 0
    ensures TotalCredit(SalesLines(ps, sek, codes)) == Booked(ps, sek, codes)
  {
    if codes != [] {
      var n := |codes| - 1;
      SalesTotals(ps, sek, codes[..n]);
      CodeTotals(ps, sek, codes[n]);
      TotalsAppend(SalesLines(ps, sek, codes[..n]), CodeLines(ps, sek, codes[n]));
    }
  }

  /** The accounts an invoice entry can touch besides 1510. */
  predicate IsSaleAccount(a: string) {
    a in ["3001", "3002", "3003", "3308", "3305", "2611", "2621", "2631", ""]
  }

  lemma {:induction false} SalesAccounts(ps: seq<Priced>, sek: int -> int, codes: seq<Code>)
    ensures forall l :: l in SalesLines(ps, sek, codes) ==> IsSaleAccount(l.account)
  {
    if codes != [] {
      SalesAccounts(ps, sek, codes[..|codes| - 1]);
    }
  }

  lemma {:induction false} EntryTotals(ps: seq<Priced>, sek: int -> int)
    ensures TotalDebit(Entry(ps, sek)) == Wrap(Booked(ps, sek, CODE_ORDER))
    ensures TotalCredit(Entry(ps, sek)) == Booked(ps, sek, CODE_ORDER)
    ensures NetOf(Entry(ps, sek), One("1510")) == Wrap(Booked(ps, sek, CODE_ORDER))
    ensures forall l :: l in Entry(ps, sek) ==> l.account == "1510" || IsSaleAccount(l.account)
  {
    var head, sales := [Debit("1510", Wrap(Booked(ps, sek, CODE_ORDER)))], SalesLines(ps, sek, CODE_ORDER);
    SalesTotals(ps, sek, CODE_ORDER);
    SalesAccounts(ps, sek, CODE_ORDER);
    TotalsAppend(head, sales);
    NetOfAppend(head, sales, One("1510"));
    NetOfOne(head[0], One("1510"));
    NetOfAbsent(sales, One("1510"));
  }

  // ---- The sum over all codes and the sum over the known ones ----

  ghost function Among(codes: seq<Code>): set<Code> {
    if codes == [] then {} else Among(codes[..|codes| - 1]) + {codes[|codes| - 1]}
  }

  lemma {:induction false} AmongHas(codes: seq<Code>)
    ensures forall c :: c in Among(codes) <==> c in codes
  {
    if codes != [] {
      AmongHas(codes[..|codes| - 1]);
      assert codes == codes[..|codes| - 1] + [codes[|codes| - 1]];
    }
  }

  lemma {:induction false} PeelOne(s: set<Code>, ps: seq<Priced>, sek: int -> int, c: Code)
    requires s <= Codes(ps) && (c in Codes(ps) ==> c in s)
    ensures SumOver(s, ShareAt(ps, sek))
            == ShareIn(ps, sek, c) + SumOver(s - {c}, ShareAt(ps, sek))
  {
    if c in s {
      SumTake(s, ShareAt(ps, sek), c);
    } else {
      assert s - {c} == s;
    }
  }

  /** The codes of a list without repetitions come off the sum one by one. */
  lemma {:induction false} PeelAll(ps: seq<Priced>, sek: int -> int, codes: seq<Code>)
    requires forall i, j :: 0 <= i < j < |codes| ==> codes[i] != codes[j]
    ensures SumOver(Codes(ps), ShareAt(ps, sek))
            == Booked(ps, sek, codes) + SumOver(Codes(ps) - Among(codes), ShareAt(ps, sek))
  {
    if codes == [] {
      assert Codes(ps) - {} == Codes(ps);
    } else {
      var n := |codes| - 1;
      PeelAll(ps, sek, codes[..n]);
      AmongHas(codes[..n]);
      PeelOne(Codes(ps) - Among(codes[..n]), ps, sek, codes[n]);
      LessOne(Codes(ps), Among(codes[..n]), codes[n]);
    }
  }

  lemma {:induction false} LessOne(s: set<Code>, t: set<Code>, c: Code)
    ensures s - t - {c} == s - (t + {c})
  {
  }

  /** In int64, the sum over all codes is what the entry debits plus the shares of the
      unknown codes; the two agree exactly when those come to nothing. */
  lemma {:induction false} SumIsDebitPlusUnknown(ps: seq<Priced>, sek: int -> int)
    ensures var all, unknown := SumOver(Codes(ps), ShareAt(ps, sek)), SumOver(Codes(ps) - KNOWN, ShareAt(ps, sek));
            var debit := Wrap(Booked(ps, sek, CODE_ORDER));
            && Wrap(all) == Plus64(debit, unknown)
            && (Wrap(all) == debit <==> Wrap(unknown) == 0)
            && (Codes(ps) <= KNOWN ==> Wrap(all) == debit)
  {
    var unknown := SumOver(Codes(ps) - KNOWN, ShareAt(ps, sek));
    var all, booked := SumOver(Codes(ps), ShareAt(ps, sek)), Booked(ps, sek, CODE_ORDER);
    KnownGone(ps, sek);
    assert all == booked + unknown;
    AgreeIff(all, booked, unknown);
    if Codes(ps) <= KNOWN {
      assert Codes(ps) - KNOWN == {};
      assert unknown == 0;
    }
  }

  lemma {:induction false} KnownGone(ps: seq<Priced>, sek: int -> int)
    ensures SumOver(Codes(ps), ShareAt(ps, sek))
            == Booked(ps, sek, CODE_ORDER) + SumOver(Codes(ps) - KNOWN, ShareAt(ps, sek))
  {
    PeelAll(ps, sek, CODE_ORDER);
    AmongHas(CODE_ORDER);
    assert Codes(ps) - Among(CODE_ORDER) == Codes(ps) - KNOWN;
  }

  lemma {:induction false} AgreeIff(sum: int, x: int, y: int)
    requires sum == x + y
    ensures Wrap(sum) == Plus64(Wrap(x), y)
    ensures Wrap(sum) == Wrap(x) <==> Wrap(y) == 0
  {
    WrapAdd(x, y);
    SameWraps(x + y, x);
    SameWraps(y, 0);
  }

  // ---- Order of the lines ----

  lemma {:induction false} NetForRemove(ps: seq<Priced>, k: nat, c: Code)
    requires k < |ps|
    ensures var rest := ps[..k] + ps[k + 1..];
            && NetFor(ps, c) == NetFor(rest, c) + (if ps[k].code == c then ps[k].net else 0)
            && VatFor(ps, c) == VatFor(rest, c) + (if ps[k].code == c then ps[k].vat else 0)
    decreases |ps| - k
  {
    var rest, n := ps[..k] + ps[k + 1..], |ps| - 1;
    if k == n {
      assert rest == ps[..n];
    } else {
      NetForRemove(ps[..n], k, c);
      assert ps[..n][..k] + ps[..n][k + 1..] == rest[..|rest| - 1];
      assert rest[|rest| - 1] == ps[n];
    }
  }

  /** Reordering the lines changes no aggregate. */
  lemma {:induction false} OrderIrrelevant(xs: seq<Priced>, ys: seq<Priced>, c: Code)
    requires multiset(xs) == multiset(ys)
    ensures NetFor(xs, c) == NetFor(ys, c) && VatFor(xs, c) == VatFor(ys, c)
    decreases |xs|
  {
    if xs == [] {
      assert |multiset(ys)| == 0;
    } else {
      var k := MatchLast(xs, ys);
      NetForRemove(ys, k, c);
      OrderIrrelevant(xs[..|xs| - 1], ys[..k] + ys[k + 1..], c);
    }
  }

  lemma {:induction false} CodesAre(ps: seq<Priced>, c: Code)
    ensures c in Codes(ps) <==> exists p :: p in ps && p.code == c
  {
    if ps != [] {
      var n := |ps| - 1;
      CodesAre(ps[..n], c);
      assert ps == ps[..n] + [ps[n]];
    }
  }

  lemma {:induction false} SameCodes(xs: seq<Priced>, ys: seq<Priced>)
    requires multiset(xs) == multiset(ys)
    ensures Codes(xs) == Codes(ys)
  {
    forall c ensures c in Codes(xs) <==> c in Codes(ys) {
      CodesAre(xs, c);
      CodesAre(ys, c);
      assert forall p :: p in xs <==> p in multiset(xs);
      assert forall p :: p in ys <==> p in multiset(ys);
    }
  }

  lemma {:induction false} SalesOrderIrrelevant(xs: seq<Priced>, ys: seq<Priced>, sek: int -> int, codes: seq<Code>)
    requires multiset(xs) == multiset(ys)
    ensures SalesLines(xs, sek, codes) == SalesLines(ys, sek, codes) && Booked(xs, sek, codes) == Booked(ys, sek, codes)
  {
    if codes != [] {
      var n := |codes| - 1;
      SalesOrderIrrelevant(xs, ys, sek, codes[..n]);
      OrderIrrelevant(xs, ys, codes[n]);
      SameCodes(xs, ys);
    }
  }

  lemma {:induction false} SumSame(s: set<Code>, f: Code -> int, g: Code -> int)
    requires forall c :: c in s ==> f(c) == g(c)
    ensures SumOver(s, f) == SumOver(s, g)
    decreases |s|
  {
    if s != {} {
      var c :| c in s;
      SumTake(s, f, c);
      SumTake(s, g, c);
      SumSame(s - {c}, f, g);
    }
  }

  /** Reordering the lines changes neither the entry nor the sum. */
  lemma {:induction false} SumOrderIrrelevant(xs: seq<Priced>, ys: seq<Priced>, sek: int -> int)
    requires multiset(xs) == multiset(ys)
    ensures Entry(xs, sek) == Entry(ys, sek)
    ensures SumOver(Codes(xs), ShareAt(xs, sek)) == SumOver(Codes(ys), ShareAt(ys, sek))
  {
    SalesOrderIrrelevant(xs, ys, sek, CODE_ORDER);
    SameCodes(xs, ys);
    forall c | c in Codes(xs) ensures ShareAt(xs, sek)(c) == ShareAt(ys, sek)(c) {
      OrderIrrelevant(xs, ys, c);
    }
    SumSame(Codes(xs), ShareAt(xs, sek), ShareAt(ys, sek));
  }

  // ---- The sum over all codes and the total ----

  ghost function PlainAt(ps: seq<Priced>): Code -> int {
    c => NetFor(ps, c) + VatFor(ps, c)
  }

  lemma {:induction false} SumPlus(s: set<Code>, f: Code -> int, g: Code -> int, c: Code, x: int)
    requires forall d :: d in s ==> g(d) == f(d) + if d == c then x else 0
    ensures SumOver(s, g) == SumOver(s, f) + if c in s then x else 0
    decreases |s|
  {
    if s != {} {
      var d :| d in s;
      SumTake(s, f, d);
      SumTake(s, g, d);
      SumPlus(s - {d}, f, g, c, x);
    }
  }

  /** The aggregates of all codes add up to the total. */
  lemma {:induction false} CodesPartition(ps: seq<Priced>, s: set<Code>)
    requires Codes(ps) <= s
    ensures SumOver(s, PlainAt(ps)) == Total(ps)
    decreases |ps|
  {
    if ps == [] {
      SumZero(s, PlainAt(ps));
    } else {
      var n := |ps| - 1;
      CodesPartition(ps[..n], s);
      SumPlus(s, PlainAt(ps[..n]), PlainAt(ps), ps[n].code, ps[n].net + ps[n].vat);
    }
  }

  lemma {:induction false} SumZero(s: set<Code>, f: Code -> int)
    requires forall c :: c in s ==> f(c) == 0
    ensures SumOver(s, f) == 0
    decreases |s|
  {
    if s != {} {
      var c :| c in s;
      SumTake(s, f, c);
      SumZero(s - {c}, f);
    }
  }

  /** Errors of at most one unit each add up to at most one per code. */
  lemma {:induction false} SumErrors(s: set<Code>, f: Code -> int, g: Code -> int, unit: int, rate: int)
    requires forall c :: c in s ==> -unit <= f(c) * unit - g(c) * rate <= unit
    ensures -|s| * unit <= SumOver(s, f) * unit - SumOver(s, g) * rate <= |s| * unit
    decreases |s|
  {
    if s != {} {
      var c :| c in s;
      SumTake(s, f, c);
      SumTake(s, g, c);
      SumErrors(s - {c}, f, g, unit, rate);
      OneMore(f(c), SumOver(s - {c}, f), SumOver(s, f), g(c), SumOver(s - {c}, g), SumOver(s, g), unit, rate,
              |s - {c}|, |s|);
    }
  }

  lemma {:induction false} OneMore(a: int, b: int, ab: int, x: int, y: int, xy: int, unit: int, rate: int, n: int,
      m: int)
    requires ab == a + b && xy == x + y && m == n + 1
    requires -unit <= a * unit - x * rate <= unit && -n * unit <= b * unit - y * rate <= n * unit
    ensures -m * unit <= ab * unit - xy * rate <= m * unit
  {
    Distribute(a, b, x, y, unit, rate);
    assert (n + 1) * unit == n * unit + unit && -(n + 1) * unit == -n * unit - unit;
  }

  lemma {:induction false} Distribute(a: int, b: int, x: int, y: int, unit: int, rate: int)
    ensures (a + b) * unit - (x + y) * rate == (a * unit - x * rate) + (b * unit - y * rate)
  {
  }

  /** Shares that are each within a unit of the plain sum times the rate add up to
      within a unit per code of the total times the rate. */
  lemma {:induction false} SumIsClose(ps: seq<Priced>, f: Code -> int, unit: int, rate: int)
    requires forall c :: c in Codes(ps) ==>
               -unit <= f(c) * unit - PlainAt(ps)(c) * rate <= unit && (rate == unit ==> f(c) == PlainAt(ps)(c))
    ensures var k := |Codes(ps)|;
            -k * unit <= SumOver(Codes(ps), f) * unit - Total(ps) * rate <= k * unit
    ensures rate == unit ==> SumOver(Codes(ps), f) == Total(ps)
  {
    SumErrors(Codes(ps), f, PlainAt(ps), unit, rate);
    CodesPartition(ps, Codes(ps));
    if rate == unit {
      SumSame(Codes(ps), f, PlainAt(ps));
    }
  }
}
