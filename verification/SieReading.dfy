/** How any SIE file is read, whoever wrote it: lines, fields, numbers, days and the
    records of each kind. */
module SieReading {
  import opened Prelude
  import opened Decimal
  import opened Sie

  // ---- Fields of a line ----

  /** How many braces have been opened and not closed. */
  function Depth(s: string): int {
    if s == "" then 0
    else Depth(s[..|s| - 1]) + if s[|s| - 1] == '{' then 1 else if s[|s| - 1] == '}' then -1 else 0
  }

  lemma {:induction false} DepthCons(c: char, s: string)
    ensures Depth([c] + s) == (if c == '{' then 1 else if c == '}' then -1 else 0) + Depth(s)
  {
    if s == "" {
      assert [c] + s == [c] && [c][..0] == "";
    } else {
      var n := |s| - 1;
      DepthCons(c, s[..n]);
      assert ([c] + s)[..n + 1] == [c] + s[..n];
    }
  }

  /** An object list ends at the first brace that closes all that are open, nested ones
      included, and runs to the end of the line if there is none. */
  lemma {:induction false} ListEnds(s: string, depth: nat)
    requires depth >= 1
    ensures var n := BraceLength(s, depth);
            && (forall k :: 0 <= k < n ==> Depth(s[..k]) + depth != 0)
            && (n < |s| ==> Depth(s[..n]) + depth == 0)
  {
    if s != "" {
      var c, rest := s[0], s[1..];
      var inner: int := if c == '{' then depth + 1 else if c == '}' then depth - 1 else depth;
      var n := BraceLength(s, depth);
      forall k | 1 <= k <= |s| ensures Depth(s[..k]) == Depth(rest[..k - 1]) + inner - depth {
        assert s[..k] == [c] + rest[..k - 1];
        DepthCons(c, rest[..k - 1]);
      }
      assert s[..0] == "";
      if inner == 0 {
        assert n == 1 && rest[..0] == "";
      } else {
        ListEnds(rest, inner);
      }
    }
  }

  /** A bare word ends at the first blank. */
  lemma {:induction false} WordEnds(s: string)
    ensures var n := BareLength(s);
            (forall k :: 0 <= k < n ==> s[k] != ' ' && s[k] != '\t') && (n < |s| ==> s[n] == ' ' || s[n] == '\t')
  {
    if s != "" && !IsBlank(s[0]) {
      WordEnds(s[1..]);
      assert forall k :: 1 <= k < |s| ==> s[k] == s[1..][k - 1];
    }
  }

  /** Blanks separate fields, and a quoted text that is never closed runs to the end. */
  lemma {:induction false} FieldsOf(s: string)
    ensures s == "" ==> Tokens(s) == []
    ensures s != "" && (s[0] == ' ' || s[0] == '\t') ==> Tokens(s) == Tokens(s[1..])
    ensures s != "" && s[0] == '{' ==>
              var n := 1 + BraceLength(s[1..], 1); Tokens(s) == [s[..n]] + Tokens(s[n..])
    ensures s != "" && s[0] !in " \t\"{" ==> Tokens(s) == [s[..BareLength(s)]] + Tokens(s[BareLength(s)..])
    ensures s != "" && s[0] == '"' && '"' !in s[1..] ==> Tokens(s) == [s[1..]]
  {
    if s != "" {
      if s[0] == '"' && '"' !in s[1..] {
        NeverClosed(s[1..]);
        assert [s[1..]] + Tokens("") == [s[1..]];
      } else if s[0] !in " \t\"{" {
        assert " \t\"{"[0] == ' ' && " \t\"{"[1] == '\t' && " \t\"{"[2] == '"' && " \t\"{"[3] == '{';
      }
    }
  }

  lemma {:induction false} NeverClosed(s: string)
    requires '"' !in s
    ensures Quoted(s) == (s, "")
  {
    if s != "" {
      assert s[0] in s && (|s| > 1 ==> s[1] in s);
      forall c | c in s[1..] ensures c in s {}
      NeverClosed(s[1..]);
      assert [s[0]] + s[1..] == s;
    }
  }

  // ---- Lines ----

  /** Lines end at line feeds; the last one need not. */
  lemma {:induction false} LinesOf(a: string, b: string)
    requires '\n' !in a
    ensures Lines(a + "\n" + b) == [a] + Lines(b)
    ensures a != "" ==> Lines(a) == [a]
  {
    LineEnds(a, "\n" + b);
    LineEnds(a, "");
    assert a + "\n" + b == a + ("\n" + b) && a + "" == a;
    assert (a + ("\n" + b))[..|a|] == a && (a + ("\n" + b))[|a| + 1..] == b;
    assert a[..|a|] == a;
    if a != "" {
      assert [a] + Lines("") == [a];
    }
  }

  lemma {:induction false} LineEnds(a: string, b: string)
    requires '\n' !in a && (b == "" || b[0] == '\n')
    ensures LineLength(a + b) == |a|
  {
    if a != "" {
      assert a[0] in a;
      forall c | c in a[1..] ensures c in a {}
      LineEnds(a[1..], b);
      assert (a + b)[1..] == a[1..] + b;
    } else {
      assert a + b == b;
    }
  }

  /** Carriage returns before the line feed are not part of the line. */
  lemma {:induction false} ReturnsDropped(s: string)
    ensures TrimCr(s + "\r") == TrimCr(s)
    ensures s == "" || s[|s| - 1] != '\r' ==> TrimCr(s) == s
  {
    assert (s + "\r")[..|s|] == s;
  }

  // ---- Numbers ----

  /** An integer is read with or without a sign, and at the nearest bound out of range. */
  lemma {:induction false} IntegersRead(d: string)
    requires d != "" && AllDigits(d)
    ensures ParseInt(d) == ParseInt("+" + d) == if Value(d) <= MAX_INT64 then Value(d) else MAX_INT64
    ensures var x: int := Value(d); ParseInt("-" + d) == if -x >= MIN_INT64 then -x else MIN_INT64
  {
    ScanOf(d);
    assert ("+" + d)[1..] == d && ("-" + d)[1..] == d;
  }

  lemma {:induction false} ScanOf(d: string)
    requires AllDigits(d)
    ensures ScanDigits(d) == if Value(d) < TWO_64 then Number(Value(d)) else Range
  {
    if d != "" {
      ScanOf(d[..|d| - 1]);
    }
  }

  /** Anything else is read as zero, unless its digits were out of range before. */
  lemma {:induction false} NothingElseRead(p: string, c: char, q: string)
    requires AllDigits(p) && Value(p) < TWO_64 && !IsDigit(c) && (p == "" ==> c != '-' && c != '+')
    ensures ParseInt(p + [c] + q) == ParseInt("-" + (p + [c] + q)) == 0
    ensures ParseInt("") == ParseInt("-") == 0
  {
    ScanStops(p, c, q);
    var s := p + [c] + q;
    assert s[0] == if p == "" then c else p[0];
    assert ("-" + s)[1..] == s;
  }

  lemma {:induction false} ScanStops(p: string, c: char, q: string)
    requires AllDigits(p) && Value(p) < TWO_64 && !IsDigit(c)
    ensures ScanDigits(p + [c] + q) == Syntax
  {
    var s := p + [c] + q;
    if q == "" {
      ScanOf(p);
      assert s[..|s| - 1] == p;
    } else {
      ScanStops(p, c, q[..|q| - 1]);
      assert s[..|s| - 1] == p + [c] + q[..|q| - 1];
    }
  }

  /** The öre of decimals cut or padded to two. */
  function Ore(f: string): int
    requires AllDigits(f)
  {
    if |f| == 0 then 0 else if |f| == 1 then Value(f) * 10 else Value(f[..2])
  }

  /** An amount is read with any number of decimals or none, cut to two. */
  lemma {:induction false} AmountsRead(w: string, f: string, x: int)
    requires w != "" && AllDigits(w) && AllDigits(f) && x == Value(w) * 100 && x + 99 <= MAX_INT64
    ensures ParseAmount(w) == ParseAmount("+" + w) == x && ParseAmount("-" + w) == -x
    ensures var t, y := w + "." + f, x + Ore(f);
            ParseAmount(t) == ParseAmount("+" + t) == y && ParseAmount("-" + t) == -y
  {
    CutNowhere(w, ".");
    CutAfter(w, '.', f, ".");
    OreRead(f);
    AmountRead(w, w, "", x);
    AmountRead(w + "." + f, w, f, x);
  }

  lemma {:induction false} AmountRead(t: string, w: string, f: string, x: int)
    requires t != "" && IsDigit(t[0]) && CutAt(t, ".") == (w, f)
    requires w != "" && AllDigits(w) && AllDigits(f) && x == Value(w) * 100 && x + 99 <= MAX_INT64
    ensures ParseAmount(t) == ParseAmount("+" + t) == x + Ore(f)
    ensures ParseAmount("-" + t) == -(x + Ore(f))
  {
    SignsTrimmed(t);
    IntegersRead(w);
    OreRead(f);
  }

  lemma {:induction false} OreRead(f: string)
    requires AllDigits(f)
    ensures f != "" ==> ParseInt((f + "00")[..2]) == Ore(f)
    ensures 0 <= Ore(f) <= 99
  {
    if f != "" {
      var t := (f + "00")[..2];
      assert AllDigits(t) && |t| == 2 && t[..1] == [f[0]];
      assert t[..1][..0] == "" && Value(t) == Value(t[..1]) * 10 + DigitValue(t[1]);
      IntegersRead(t);
      if |f| == 1 {
        assert t == f + "0" && t[..1] == f;
      } else {
        assert t == f[..2];
      }
    }
  }

  lemma {:induction false} SignsTrimmed(s: string)
    requires s != "" && IsDigit(s[0])
    ensures TrimPrefix(TrimPrefix(s, '-'), '+') == s
    ensures TrimPrefix(TrimPrefix("+" + s, '-'), '+') == s
    ensures TrimPrefix(TrimPrefix("-" + s, '-'), '+') == s
  {
    assert ("+" + s)[1..] == s && ("-" + s)[1..] == s;
  }

  // ---- Days ----

  /** The calendar: the days of each month, and leap years. */
  lemma {:induction false} DaysAre(y: int)
    ensures DaysIn(y, 1) == DaysIn(y, 3) == DaysIn(y, 5) == DaysIn(y, 7) == DaysIn(y, 8) == DaysIn(y, 10)
         == DaysIn(y, 12) == 31
    ensures DaysIn(y, 4) == DaysIn(y, 6) == DaysIn(y, 9) == DaysIn(y, 11) == 30
    ensures DaysIn(y, 2) == if y % 4 != 0 then 28 else if y % 100 != 0 then 29 else if y % 400 != 0 then 28 else 29
  {
  }

  /** Eight digits that name a day are read as it. Anything else leaves 1 January of
      year 1. */
  lemma {:induction false} DaysRead(y: int, m: int, d: int, s: string)
    requires 0 <= y <= 9999 && 0 <= m <= 99 && 0 <= d <= 99
    ensures ParseYmd(Padded(y * 10000 + m * 100 + d, 8))
         == if 1 <= m <= 12 && 1 <= d <= DaysIn(y, m) then y * 10000 + m * 100 + d else 1_01_01
    ensures ParseYmd(s) == 1_01_01 || s == Padded(ParseYmd(s), 8)
  {
    var n := y * 10000 + m * 100 + d;
    assert n / 10000 == y && n / 100 == y * 100 + m && n / 100 % 100 == m && n % 100 == d;
    assert PowerOfTen(8) == 100_000_000 by {
      assert PowerOfTen(4) == 10 * PowerOfTen(3) && PowerOfTen(3) == 10 * PowerOfTen(2) == 1000;
      assert PowerOfTen(8) == 10 * PowerOfTen(7) && PowerOfTen(7) == 10 * PowerOfTen(6);
      assert PowerOfTen(6) == 10 * PowerOfTen(5) && PowerOfTen(5) == 10 * PowerOfTen(4);
    }
    PaddedValue(n, 8);
    assert IsDay(n) <==> 1 <= m <= 12 && 1 <= d <= DaysIn(y, m);
    if |s| == 8 && AllDigits(s) && IsDay(Value(s)) {
      PaddedOfValue(s);
    }
  }

  // ---- Records ----

  /** A balance record of the current year. */
  predicate BalanceOf(toks: seq<string>, tag: string) {
    |toks| >= 4 && toks[0] == tag && toks[1] == "0"
  }

  function BalancesIn(lines: seq<seq<string>>, tag: string): seq<Balance> {
    if lines == [] then []
    else
      var toks := lines[|lines| - 1];
      BalancesIn(lines[..|lines| - 1], tag)
      + if BalanceOf(toks, tag) then [Balance(toks[2], ParseAmount(toks[3]))] else []
  }

  function AccountsIn(lines: seq<seq<string>>): seq<Account> {
    if lines == [] then []
    else
      var toks := lines[|lines| - 1];
      AccountsIn(lines[..|lines| - 1])
      + if |toks| >= 3 && toks[0] == "#KONTO" then [Account(toks[1], toks[2])] else []
  }

  /** The first field of the last record with this tag, or "" if there is none. */
  function LastIn(lines: seq<seq<string>>, tag: string): string {
    if lines == [] then ""
    else
      var toks := lines[|lines| - 1];
      if |toks| >= 2 && toks[0] == tag then toks[1] else LastIn(lines[..|lines| - 1], tag)
  }

  /** The current year, as the last record of it says. */
  function YearIn(lines: seq<seq<string>>): (Day, Day) {
    if lines == [] then (1_01_01, 1_01_01)
    else
      var toks := lines[|lines| - 1];
      if BalanceOf(toks, "#RAR") then (ParseYmd(toks[2]), ParseYmd(toks[3])) else YearIn(lines[..|lines| - 1])
  }

  /** The heading, if any, under which a line comes: the last voucher record with no
      closing brace after it. */
  function OpenAt(lines: seq<seq<string>>): Option<nat> {
    if lines == [] then None
    else
      var n := |lines| - 1;
      var toks := lines[n];
      if toks == [] then OpenAt(lines[..n])
      else if toks[0] == "#VER" then Some(n)
      else if toks[0] == "}" then None
      else OpenAt(lines[..n])
  }

  /** The transaction that a record states, if it does. */
  function MoveOf(toks: seq<string>): seq<Trans> {
    if |toks| >= 4 && toks[0] == "#TRANS" then
      [Trans(toks[1], ParseAmount(toks[3]), if |toks| >= 6 then toks[5] else "")] else []
  }

  /** The transactions after line `from`. */
  function MovesIn(lines: seq<seq<string>>, from: nat): seq<Trans>
    requires from < |lines|
    decreases |lines|
  {
    var n := |lines| - 1;
    if n == from then []
    else MovesIn(lines[..n], from) + MoveOf(lines[n])
  }

  /** The voucher that a heading opens: fields that are missing are empty. */
  function Headed(toks: seq<string>, lines: seq<Trans>): Ver {
    Ver(if |toks| >= 2 then toks[1] else "", if |toks| >= 3 then ParseInt(toks[2]) else 0,
        if |toks| >= 4 then ParseYmd(toks[3]) else 1_01_01, if |toks| >= 5 then toks[4] else "", lines)
  }

  lemma {:induction false} OpenBelow(lines: seq<seq<string>>)
    ensures OpenAt(lines).Some? ==> OpenAt(lines).value < |lines|
  {
    if lines != [] {
      OpenBelow(lines[..|lines| - 1]);
    }
  }

  /** Each closing brace under a heading completes its voucher. */
  function VouchersIn(lines: seq<seq<string>>): seq<Ver> {
    if lines == [] then []
    else
      var n := |lines| - 1;
      var before := lines[..n];
      OpenBelow(before);
      VouchersIn(before)
      + if lines[n] != [] && lines[n][0] == "}" && OpenAt(before).Some? then
          [Headed(before[OpenAt(before).value], MovesIn(before, OpenAt(before).value))] else []
  }

  function TakeFields(r: Reader, lines: seq<seq<string>>): Reader {
    if lines == [] then r else Take(TakeFields(r, lines[..|lines| - 1]), lines[|lines| - 1])
  }

  /** The reader after some lines: the records of each kind so far, in order. */
  ghost predicate ReadSo(r: Reader, lines: seq<seq<string>>) {
    && r.e.companyName == LastIn(lines, "#FNAMN") && r.e.orgNr == LastIn(lines, "#ORGNR")
    && (r.e.yearStart, r.e.yearEnd) == YearIn(lines) && r.e.accounts == AccountsIn(lines)
    && r.e.opening == BalancesIn(lines, "#IB") && r.e.closing == BalancesIn(lines, "#UB")
    && r.e.results == [] && r.e.generated == 1_01_01
  }

  /** The voucher under way is that of the open heading. */
  ghost predicate CurrentSo(cur: Option<Ver>, lines: seq<seq<string>>) {
    match OpenAt(lines)
    case None => cur.None?
    case Some(k) => k < |lines| && cur == Some(Headed(lines[k], MovesIn(lines, k)))
  }

  ghost predicate VouchersSo(r: Reader, lines: seq<seq<string>>) {
    r.e.vouchers == VouchersIn(lines) && CurrentSo(r.cur, lines)
  }

  const START: Reader := Reader(EMPTY, None)

  /** A file is read as the records of each kind in order: balances and the year only of
      year 0, transactions only under a heading. */
  lemma {:induction false} SectionsRead(lines: seq<seq<string>>)
    ensures ReadSo(TakeFields(START, lines), lines) && VouchersSo(TakeFields(START, lines), lines)
  {
    if lines != [] {
      var n := |lines| - 1;
      SectionsRead(lines[..n]);
      assert lines == lines[..n] + [lines[n]];
      SectionStep(TakeFields(START, lines[..n]), lines[..n], lines[n]);
      VoucherStep(TakeFields(START, lines[..n]), lines[..n], lines[n]);
    }
  }

  lemma {:induction false} SectionStep(r: Reader, lines: seq<seq<string>>, toks: seq<string>)
    requires ReadSo(r, lines)
    ensures ReadSo(Take(r, toks), lines + [toks])
  {
    var tag := if toks == [] then "" else toks[0];
    assert (lines + [toks])[..|lines|] == lines;
    assert AccountsIn(lines) + [] == AccountsIn(lines);
    assert BalancesIn(lines, "#IB") + [] == BalancesIn(lines, "#IB");
    assert BalancesIn(lines, "#UB") + [] == BalancesIn(lines, "#UB");
    if tag == "#KONTO" || tag == "#IB" || tag == "#UB" {
      ListStep(r, lines, toks);
    } else if tag == "#FNAMN" || tag == "#ORGNR" || tag == "#RAR" {
      FieldStep(r, lines, toks);
    }
  }

  lemma {:induction false} ListStep(r: Reader, lines: seq<seq<string>>, toks: seq<string>)
    requires ReadSo(r, lines) && toks != [] && (toks[0] == "#KONTO" || toks[0] == "#IB" || toks[0] == "#UB")
    ensures ReadSo(Take(r, toks), lines + [toks])
  {
    assert (lines + [toks])[..|lines|] == lines;
  }

  lemma {:induction false} FieldStep(r: Reader, lines: seq<seq<string>>, toks: seq<string>)
    requires ReadSo(r, lines) && toks != [] && (toks[0] == "#FNAMN" || toks[0] == "#ORGNR" || toks[0] == "#RAR")
    ensures ReadSo(Take(r, toks), lines + [toks])
  {
    assert (lines + [toks])[..|lines|] == lines;
  }

  lemma {:induction false} TakeIs(r: Reader, toks: seq<string>)
    ensures var tag := if toks == [] then "" else toks[0];
            && Take(r, toks).cur
               == (if tag == "#VER" then Some(Headed(toks, []))
                   else if tag == "}" || r.cur.None? then None
                   else Some(r.cur.value.(lines := r.cur.value.lines + MoveOf(toks))))
            && Take(r, toks).e.vouchers
               == r.e.vouchers + if tag == "}" && r.cur.Some? then [r.cur.value] else []
  {
    assert r.e.vouchers + [] == r.e.vouchers;
    if r.cur.Some? {
      assert r.cur.value.lines + [] == r.cur.value.lines;
    }
  }

  lemma {:induction false} CurrentStep(r: Reader, lines: seq<seq<string>>, toks: seq<string>)
    requires CurrentSo(r.cur, lines)
    ensures CurrentSo(Take(r, toks).cur, lines + [toks])
  {
    var all := lines + [toks];
    assert all[..|lines|] == lines && all[|lines|] == toks;
    TakeIs(r, toks);
    OpenBelow(lines);
    if OpenAt(lines).Some? {
      assert all[OpenAt(lines).value] == lines[OpenAt(lines).value];
    }
  }

  lemma {:induction false} VoucherStep(r: Reader, lines: seq<seq<string>>, toks: seq<string>)
    requires VouchersSo(r, lines)
    ensures VouchersSo(Take(r, toks), lines + [toks])
  {
    var all := lines + [toks];
    assert all[..|lines|] == lines && all[|lines|] == toks;
    TakeIs(r, toks);
    CurrentStep(r, lines, toks);
  }

  /** The fields of each line. */
  function FieldsIn(lines: seq<string>): seq<seq<string>> {
    seq(|lines|, i requires 0 <= i < |lines| => Tokens(TrimCr(lines[i])))
  }

  lemma {:induction false} TakeAllIs(lines: seq<string>)
    ensures TakeAll(START, lines) == TakeFields(START, FieldsIn(lines))
  {
    if lines != [] {
      var n := |lines| - 1;
      TakeAllIs(lines[..n]);
      TakeSnoc(START, lines[..n], lines[n]);
      assert lines == lines[..n] + [lines[n]] && FieldsIn(lines)[..n] == FieldsIn(lines[..n]);
    }
  }

  /** So is a text: by the fields of its lines. */
  lemma {:induction false} TextReads(text: string)
    ensures var lines := FieldsIn(Lines(text));
            ReadSo(Reader(ParseText(text), None), lines) && ParseText(text).vouchers == VouchersIn(lines)
  {
    TakeAllIs(Lines(text));
    SectionsRead(FieldsIn(Lines(text)));
  }

  // ---- Long lines ----

  /** The width of a character in UTF-8, and the line length at which reading stops. */
  lemma {:induction false} LineLimit(line: string, c: char)
    ensures Utf8Width(c)
         == if c as int <= 0x7f then 1 else if c as int <= 0x7ff then 2 else if c as int <= 0xffff then 3 else 4
    ensures Utf8Length(line + [c]) == Utf8Length(line) + Utf8Width(c) && Utf8Length("") == 0
    ensures TooLong(line) <==> Utf8Length(line) >= 4_194_304
  {
    assert (line + [c])[..|line|] == line;
  }
}
