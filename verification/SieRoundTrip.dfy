/** Reading back what was written: Parse(Write(e)) is e, up to what the format
    drops and one exactly described effect on quoted texts. */
module SieRoundTrip {
  import opened Prelude
  import opened Decimal
  import opened Sie

  // ---- Amounts ----

  lemma {:induction false} ShowIntShape(x: int)
    ensures ShowInt(x) != "" && forall i :: 0 <= i < |ShowInt(x)| ==> ShowInt(x)[i] == '-' || IsDigit(ShowInt(x)[i])
    ensures x >= 0 ==> IsDigit(ShowInt(x)[0])
  {
    ShowValue(Abs(x));
  }

  lemma {:induction false} ShowTwoShape(x: int)
    requires -10 < x < 100
    ensures |ShowTwo(x)| == 2 && ParseInt(ShowTwo(x)) == x
    ensures forall i :: 0 <= i < 2 ==> ShowTwo(x)[i] == '-' || IsDigit(ShowTwo(x)[i])
  {
    if 0 <= x < 10 {
      assert AllDigits(ShowTwo(x)) && ShowTwo(x)[..1] == "0" && Value("0") == 0;
      assert Value(ShowTwo(x)) == x;
      ScanIsValue(ShowTwo(x));
    } else {
      ParseShowInt(x);
      assert x >= 10 ==> Show(x) == Show(x / 10) + [DigitOf(x % 10)] && |Show(x / 10)| == 1;
    }
  }

  function Magnitude(ore: int): int {
    if ore < 0 then Wrap(-ore) else ore
  }

  lemma {:induction false} MagnitudeParts(ore: int)
    requires Fits(ore)
    ensures var kr, rest := TruncDiv(Magnitude(ore), 100), TruncMod(Magnitude(ore), 100);
            && Fits(kr) && -10 < rest < 100 && kr * 100 + rest == Magnitude(ore)
            && (ore >= 0 ==> kr >= 0)
    ensures Wrap(Magnitude(ore)) == Magnitude(ore) && (ore < 0 ==> Wrap(-Magnitude(ore)) == ore)
  {
  }

  /** The digits after the sign: kronor, a point and two characters. */
  function Digits(ore: int): string {
    ShowInt(TruncDiv(Magnitude(ore), 100)) + "." + ShowTwo(TruncMod(Magnitude(ore), 100))
  }

  lemma {:induction false} DigitsShape(ore: int)
    requires Fits(ore)
    ensures Digits(ore) != "" && (Digits(ore)[0] == '-' || IsDigit(Digits(ore)[0]))
            && (ore >= 0 ==> IsDigit(Digits(ore)[0]))
    ensures forall i :: 0 <= i < |Digits(ore)| ==> Digits(ore)[i] in "-." || IsDigit(Digits(ore)[i])
    ensures FormatAmount(ore) == (if ore < 0 then "-" else "") + Digits(ore)
  {
    MagnitudeParts(ore);
    ShowIntShape(TruncDiv(Magnitude(ore), 100));
    ShowTwoShape(TruncMod(Magnitude(ore), 100));
    var sign := if ore < 0 then "-" else "";
    assert sign + ShowInt(TruncDiv(Magnitude(ore), 100)) + "." + ShowTwo(TruncMod(Magnitude(ore), 100))
      == sign + Digits(ore);
  }

  lemma {:induction false} DigitsCut(ore: int)
    requires Fits(ore)
    ensures var kr, rest := TruncDiv(Magnitude(ore), 100), TruncMod(Magnitude(ore), 100);
            && CutAt(Digits(ore), ".") == (ShowInt(kr), ShowTwo(rest)) && ParseInt(ShowInt(kr)) == kr
            && |ShowTwo(rest)| == 2 && ParseInt((ShowTwo(rest) + "00")[..2]) == rest
  {
    MagnitudeParts(ore);
    var kr, rest := TruncDiv(Magnitude(ore), 100), TruncMod(Magnitude(ore), 100);
    ShowIntShape(kr);
    ShowTwoShape(rest);
    ParseShowInt(kr);
    CutAfter(ShowInt(kr), '.', ShowTwo(rest), ".");
    assert (ShowTwo(rest) + "00")[..2] == ShowTwo(rest);
  }

  /** Every int64 amount reads back as itself, MinInt64 included: it prints with two
      signs and a negative fraction, and the parser undoes all three. */
  lemma {:induction false} AmountRoundTrip(ore: int)
    requires Fits(ore)
    ensures ParseAmount(FormatAmount(ore)) == ore
  {
    DigitsShape(ore);
    DigitsCut(ore);
    MagnitudeParts(ore);
    SignThen(ore < 0, Digits(ore));
  }

  /** The signs are trimmed off, also when the digits themselves begin with one. */
  lemma {:induction false} SignThen(neg: bool, digits: string)
    requires digits != "" && (digits[0] == '-' || IsDigit(digits[0])) && (!neg ==> IsDigit(digits[0]))
    ensures var s := (if neg then "-" else "") + digits;
            s != "" && (s[0] == '-' <==> neg) && TrimPrefix(TrimPrefix(s, '-'), '+') == digits
  {
    if neg {
      assert ("-" + digits)[1..] == digits;
    } else {
      assert "" + digits == digits;
    }
  }

  lemma {:induction false} DayRoundTrip(d: Day)
    ensures ParseYmd(Ymd(d)) == d
    ensures |Ymd(d)| == 8 && AllDigits(Ymd(d))
  {
    assert IsDay(d);
    assert PowerOfTen(4) == 10_000;
    assert PowerOfTen(8) == 10_000 * PowerOfTen(4);
    PaddedValue(d, 8);
  }

  // ---- Tokens of a written record ----

  /** Printable and without blanks, and not mistaken for a quoted text or a list. */
  predicate IsBare(w: string) {
    && w != "" && w[0] != '"' && w[0] != '{'
    && forall i :: 0 <= i < |w| ==> w[i] != ' ' && !IsControl(w[i])
  }

  predicate NoControl(s: string) {
    forall i :: 0 <= i < |s| ==> !IsControl(s[i])
  }

  lemma {:induction false} BareRun(w: string, rest: string)
    requires forall i :: 0 <= i < |w| ==> !IsBlank(w[i])
    requires rest == "" || IsBlank(rest[0])
    ensures BareLength(w + rest) == |w|
  {
    if w == "" {
      assert w + rest == rest;
    } else {
      BareRun(w[1..], rest);
      assert (w + rest)[1..] == w[1..] + rest;
    }
  }

  /** A bare word is one token, before a blank or at the end of the line. */
  lemma {:induction false} BareToken(w: string, rest: string)
    requires IsBare(w) && (rest == "" || rest[0] == ' ')
    ensures Tokens(w + rest) == [w] + Tokens(rest)
  {
    BareRun(w[1..], rest);
    var s := w + rest;
    assert s[1..] == w[1..] + rest;
    assert s[..|w|] == w && s[|w|..] == rest;
  }

  /** The text that comes back for a quoted text: control characters as spaces, and
      a final backslash read, with the closing quote, as a quote. */
  function Reread(s: string): string {
    Unterminated(Clean(s))
  }

  function Unterminated(s: string): string {
    if s != "" && s[|s| - 1] == '\\' then s[..|s| - 1] + "\"" else s
  }

  lemma {:induction false} UnterminatedTail(c: char, t: string)
    requires t != ""
    ensures Unterminated([c] + t) == [c] + Unterminated(t)
  {
    var s := [c] + t;
    assert s[|s| - 1] == t[|t| - 1];
    assert s[..|s| - 1] == [c] + t[..|t| - 1];
  }

  lemma {:induction false} EscapedReadsBack(s: string)
    ensures Quoted(Escape(s) + "\"") == (Unterminated(s), "")
  {
    var u := Escape(s) + "\"";
    if s == "" {
      assert u == "\"";
    } else {
      var t := s[1..];
      var v := Escape(t) + "\"";
      EscapedReadsBack(t);
      assert s == [s[0]] + t;
      if t != "" {
        UnterminatedTail(s[0], t);
        assert v[0] == if t[0] == '"' then '\\' else t[0];
      } else {
        assert v == "\"";
      }
      if s[0] == '"' {
        assert u == "\\\"" + v && u[2..] == v;
      } else {
        assert u == [s[0]] + v && u[1..] == v;
        if t == "" {
          assert u[2..] == "" && s[..0] == "" && Quoted(v) == ("", "");
          assert [s[0]] + "" == s && "\"" + "" == "\"";
        }
      }
    }
  }

  /** A quoted text that ends the line is one token. */
  lemma {:induction false} QuoteToken(s: string)
    ensures Tokens(Quote(s)) == [Reread(s)]
  {
    EscapedReadsBack(Clean(s));
    assert Quote(s)[1..] == Escape(Clean(s)) + "\"";
  }

  /** Texts come back exactly, with control characters as spaces, if and only if the
      written text does not end in a backslash. */
  lemma {:induction false} RereadExactIff(s: string)
    ensures Reread(s) == Clean(s) <==> !(s != "" && s[|s| - 1] == '\\')
    ensures |Reread(s)| == |s|
  {
    if s != "" && s[|s| - 1] == '\\' {
      assert Reread(s)[|s| - 1] == '"';
    }
  }

  /** What a field is read back as. */
  function ReadField(f: Field): string {
    match f
    case Bare(w) => w
    case Label(s) => s
    case EmptyList => "{}"
    case QuotedText(t) => Reread(t)
  }

  function ReadFields(fields: seq<Field>): seq<string> {
    seq(|fields|, i requires 0 <= i < |fields| => ReadField(fields[i]))
  }

  /** A field that ends where the next blank is. */
  predicate Unquoted(f: Field) {
    match f
    case Bare(w) => IsBare(w)
    case Label(s) => s == "" || IsBare(s)
    case EmptyList => true
    case QuotedText(_) => false
  }

  /** Bare words and series are bare; a quoted text is the last field. */
  predicate Plain(fields: seq<Field>) {
    forall i :: 0 <= i < |fields| ==> Unquoted(fields[i]) || (fields[i].QuotedText? && i == |fields| - 1)
  }

  lemma {:induction false} FieldThen(f: Field, rest: string)
    requires Unquoted(f) && (rest == "" || rest[0] == ' ')
    ensures Tokens(Written(f) + rest) == [ReadField(f)] + Tokens(rest)
  {
    match f {
      case Bare(w) => BareToken(w, rest);
      case Label(l) =>
        if l == "" {
          EmptyTokens(rest);
        } else {
          BareToken(l, rest);
        }
      case EmptyList => EmptyTokens(rest);
    }
  }

  lemma {:induction false} EmptyTokens(rest: string)
    ensures Tokens("\"\"" + rest) == [""] + Tokens(rest)
    ensures Tokens("{}" + rest) == ["{}"] + Tokens(rest)
  {
    var s, t := "\"\"" + rest, "{}" + rest;
    assert s[1..] == "\"" + rest && s[1..][1..] == rest;
    assert t[1..] == "}" + rest && t[..2] == "{}" && t[2..] == rest;
  }

  /** A written record is read back field by field. */
  lemma {:induction false} RecordTokens(fields: Record)
    requires Plain(fields)
    ensures Tokens(Line(fields)) == ReadFields(fields)
  {
    if |fields| == 1 {
      assert fields == [fields[0]];
      LastField(fields[0]);
    } else {
      PlainTail(fields);
      RecordTokens(fields[1..]);
      FirstField(fields[0], fields[1..]);
      assert fields == [fields[0]] + fields[1..];
    }
  }

  lemma {:induction false} PlainTail(fields: seq<Field>)
    requires |fields| > 1 && Plain(fields)
    ensures Unquoted(fields[0]) && Plain(fields[1..])
  {
    assert forall i :: 0 <= i < |fields| - 1 ==> fields[1..][i] == fields[i + 1];
  }

  lemma {:induction false} LastField(f: Field)
    requires Unquoted(f) || f.QuotedText?
    ensures Tokens(Line([f])) == ReadFields([f])
  {
    assert ReadFields([f]) == [ReadField(f)];
    if f.QuotedText? {
      QuoteToken(f.text);
    } else {
      FieldThen(f, "");
      assert Written(f) + "" == Written(f);
    }
  }

  lemma {:induction false} FirstField(f: Field, rest: Record)
    requires Unquoted(f) && Tokens(Line(rest)) == ReadFields(rest)
    ensures Tokens(Line([f] + rest)) == ReadFields([f] + rest)
  {
    assert ReadFields([f] + rest) == [ReadField(f)] + ReadFields(rest);
    var tail := " " + Line(rest);
    FieldThen(f, tail);
    LineCons(f, rest);
    assert tail[1..] == Line(rest);
  }

  lemma {:induction false} LineCons(f: Field, rest: Record)
    ensures Line([f] + rest) == Written(f) + (" " + Line(rest))
  {
    assert ([f] + rest)[1..] == rest;
    assert Written(f) + " " + Line(rest) == Written(f) + (" " + Line(rest));
  }

  lemma {:induction false} IntIsBare(x: int)
    ensures IsBare(ShowInt(x))
  {
    ShowIntShape(x);
  }

  lemma {:induction false} AmountIsBare(ore: int)
    requires Fits(ore)
    ensures IsBare(FormatAmount(ore))
  {
    DigitsShape(ore);
  }

  lemma {:induction false} DayIsBare(d: Day)
    ensures IsBare(Ymd(d))
  {
    DayRoundTrip(d);
  }

  // ---- Lines ----

  /** No field puts a control character, and so no line end, into the line. */
  predicate Printable(fields: seq<Field>) {
    forall i :: 0 <= i < |fields| ==> PrintableField(fields[i])
  }

  predicate PrintableField(f: Field) {
    match f
    case Bare(w) => NoControl(w)
    case Label(s) => NoControl(s)
    case _ => true
  }

  lemma {:induction false} EscapeNoControl(s: string)
    requires NoControl(s)
    ensures NoControl(Escape(s))
  {
    if s != "" {
      EscapeNoControl(s[1..]);
    }
  }

  lemma {:induction false} LineNoControl(fields: Record)
    requires Printable(fields)
    ensures NoControl(Line(fields))
  {
    if fields[0].QuotedText? {
      EscapeNoControl(Clean(fields[0].text));
    }
    assert NoControl(Written(fields[0]));
    if |fields| > 1 {
      assert forall i :: 0 <= i < |fields| - 1 ==> fields[1..][i] == fields[i + 1];
      LineNoControl(fields[1..]);
    }
  }

  lemma {:induction false} LineLengthIs(l: string, rest: string)
    requires forall i :: 0 <= i < |l| ==> l[i] != '\n'
    ensures LineLength(l + "\n" + rest) == |l|
  {
    var u := l + "\n" + rest;
    if l != "" {
      LineLengthIs(l[1..], rest);
      assert u[1..] == l[1..] + "\n" + rest;
    }
  }

  /** Reading the records one by one. */
  function TakeRecords(r: Reader, records: seq<Record>): Reader
    decreases |records|
  {
    if records == [] then r else TakeRecords(Take(r, Tokens(Line(records[0]))), records[1..])
  }

  /** Whatever the texts in them, the written records are exactly the lines read. */
  lemma {:induction false} LinesAreRecords(r: Reader, records: seq<Record>)
    requires AllPrintable(records)
    ensures TakeAll(r, Lines(Text(records))) == TakeRecords(r, records)
    ensures |Lines(Text(records))| == |records|
    decreases |records|
  {
    if records != [] {
      var l, rest := Line(records[0]), Text(records[1..]);
      var u := l + "\n" + rest;
      LineNoControl(records[0]);
      LineLengthIs(l, rest);
      assert u[..|l|] == l && u[|l| + 1..] == rest;
      assert Lines(u) == [l] + Lines(rest);
      assert TrimCr(l) == l;
      assert ([l] + Lines(rest))[1..] == Lines(rest);
      LinesAreRecords(Take(r, Tokens(l)), records[1..]);
    }
  }

  lemma {:induction false} TakeRecordsAppend(r: Reader, xs: seq<Record>, ys: seq<Record>)
    ensures TakeRecords(r, xs + ys) == TakeRecords(TakeRecords(r, xs), ys)
    decreases |xs|
  {
    if xs == [] {
      assert xs + ys == ys;
    } else {
      var all, r1 := xs + ys, Take(r, Tokens(Line(xs[0])));
      assert all[0] == xs[0] && all[1..] == xs[1..] + ys;
      assert TakeRecords(r, all) == TakeRecords(r1, all[1..]);
      TakeRecordsAppend(r1, xs[1..], ys);
    }
  }

  // ---- The round trip ----

  predicate SafeVoucher(v: Ver) {
    && (v.series == "" || IsBare(v.series)) && Fits(v.number)
    && forall i :: 0 <= i < |v.lines| ==> IsBare(v.lines[i].account) && Fits(v.lines[i].amount)
  }

  predicate SafeBalances(bs: seq<Balance>) {
    forall i :: 0 <= i < |bs| ==> IsBare(bs[i].account) && Fits(bs[i].amount)
  }

  /** The unquoted fields are bare words; texts are unrestricted. */
  predicate Safe(e: Export) {
    && (e.orgNr == "" || IsBare(e.orgNr))
    && (forall i :: 0 <= i < |e.accounts| ==> IsBare(e.accounts[i].number))
    && SafeBalances(e.opening) && SafeBalances(e.closing) && SafeBalances(e.results)
    && forall i :: 0 <= i < |e.vouchers| ==> SafeVoucher(e.vouchers[i])
  }

  function RereadTrans(l: Trans): Trans {
    l.(text := Reread(l.text))
  }

  function RereadLines(lines: seq<Trans>): seq<Trans> {
    seq(|lines|, i requires 0 <= i < |lines| => RereadTrans(lines[i]))
  }

  function RereadVoucher(v: Ver): Ver {
    v.(text := Reread(v.text), lines := RereadLines(v.lines))
  }

  function RereadVouchers(vs: seq<Ver>): seq<Ver> {
    seq(|vs|, i requires 0 <= i < |vs| => RereadVoucher(vs[i]))
  }

  function RereadAccount(a: Account): Account {
    a.(name := Reread(a.name))
  }

  function RereadAccounts(accounts: seq<Account>): seq<Account> {
    seq(|accounts|, i requires 0 <= i < |accounts| => RereadAccount(accounts[i]))
  }

  /** What is read back: every field as written, texts as Reread describes. The
      generation date and the #RES records are not read. */
  function RereadExport(e: Export): Export {
    Export(Reread(e.companyName), e.orgNr, e.yearStart, e.yearEnd, ZERO_DAY,
           RereadAccounts(e.accounts), RereadVouchers(e.vouchers), e.opening, e.closing, [])
  }

  lemma {:induction false} AccountTokens(a: Account)
    requires IsBare(a.number)
    ensures Tokens(Line(AccountRecord(a))) == ["#KONTO", a.number, Reread(a.name)]
  {
    RecordTokens(AccountRecord(a));
    assert ReadFields(AccountRecord(a)) == ["#KONTO", a.number, Reread(a.name)];
  }

  lemma {:induction false} TakeAccount(r: Reader, a: Account)
    requires IsBare(a.number)
    ensures Take(r, Tokens(Line(AccountRecord(a)))) == r.(e := r.e.(accounts := r.e.accounts + [RereadAccount(a)]))
  {
    AccountTokens(a);
  }

  lemma {:induction false} TakeCons(r: Reader, first: Record, rest: seq<Record>)
    ensures TakeRecords(r, [first] + rest) == TakeRecords(Take(r, Tokens(Line(first))), rest)
  {
    assert ([first] + rest)[1..] == rest;
  }

  lemma {:induction false} TakeAccounts(r: Reader, accounts: seq<Account>)
    requires forall i :: 0 <= i < |accounts| ==> IsBare(accounts[i].number)
    ensures TakeRecords(r, AccountRecords(accounts))
            == r.(e := r.e.(accounts := r.e.accounts + RereadAccounts(accounts)))
    decreases |accounts|
  {
    if accounts == [] {
      Assoc(r.e.accounts, [], []);
    } else {
      var a, rest := accounts[0], accounts[1..];
      assert AccountRecords(accounts) == [AccountRecord(a)] + AccountRecords(rest);
      TakeAccountThen(r, a, AccountRecords(rest));
      TakeAccounts(r.(e := r.e.(accounts := r.e.accounts + [RereadAccount(a)])), rest);
      assert RereadAccounts(accounts) == [RereadAccount(a)] + RereadAccounts(rest);
      Assoc(r.e.accounts, [RereadAccount(a)], RereadAccounts(rest));
    }
  }

  lemma {:induction false} TakeAccountThen(r: Reader, a: Account, rest: seq<Record>)
    requires IsBare(a.number)
    ensures TakeRecords(r, [AccountRecord(a)] + rest)
            == TakeRecords(r.(e := r.e.(accounts := r.e.accounts + [RereadAccount(a)])), rest)
  {
    TakeCons(r, AccountRecord(a), rest);
    TakeAccount(r, a);
  }

  lemma {:induction false} FourWords(a: string, b: string, c: string, d: string)
    requires IsBare(a) && IsBare(b) && IsBare(c) && IsBare(d)
    ensures Tokens(Line([Bare(a), Bare(b), Bare(c), Bare(d)])) == [a, b, c, d]
  {
    var fields: Record := [Bare(a), Bare(b), Bare(c), Bare(d)];
    assert Plain(fields);
    RecordTokens(fields);
    assert ReadFields(fields) == [a, b, c, d];
  }

  lemma {:induction false} BalanceTokens(tag: string, b: Balance)
    requires IsBare(tag) && IsBare(b.account) && Fits(b.amount)
    ensures Tokens(Line(BalanceRecord(tag, b))) == [tag, "0", b.account, FormatAmount(b.amount)]
  {
    AmountIsBare(b.amount);
    FourWords(tag, "0", b.account, FormatAmount(b.amount));
  }

  datatype Tag = IB | UB | RES

  function TagWord(tag: Tag): string {
    match tag case IB => "#IB" case UB => "#UB" case RES => "#RES"
  }

  /** One balance record; #RES is not read. */
  lemma {:induction false} TakeBalance(r: Reader, tag: Tag, b: Balance)
    requires IsBare(b.account) && Fits(b.amount)
    ensures Take(r, Tokens(Line(BalanceRecord(TagWord(tag), b)))) == WithBalances(r, tag, [b])
  {
    BalanceTokens(TagWord(tag), b);
    TakeBalanceFields(r, tag, [TagWord(tag), "0", b.account, FormatAmount(b.amount)]);
    AmountRoundTrip(b.amount);
  }

  lemma {:induction false} TakeBalanceFields(r: Reader, tag: Tag, toks: seq<string>)
    requires |toks| == 4 && toks[0] == TagWord(tag) && toks[1] == "0"
    ensures Take(r, toks) == WithBalances(r, tag, [Balance(toks[2], ParseAmount(toks[3]))])
  {
  }

  function WithBalances(r: Reader, tag: Tag, bs: seq<Balance>): Reader {
    match tag
    case IB => r.(e := r.e.(opening := r.e.opening + bs))
    case UB => r.(e := r.e.(closing := r.e.closing + bs))
    case RES => r
  }

  lemma {:induction false} TakeBalances(r: Reader, tag: Tag, bs: seq<Balance>)
    requires SafeBalances(bs)
    ensures TakeRecords(r, BalanceRecords(TagWord(tag), bs)) == WithBalances(r, tag, bs)
    decreases |bs|
  {
    if bs == [] {
      Assoc(r.e.opening, [], []);
      Assoc(r.e.closing, [], []);
    } else {
      TakeCons(r, BalanceRecord(TagWord(tag), bs[0]), BalanceRecords(TagWord(tag), bs[1..]));
      TakeBalance(r, tag, bs[0]);
      TakeBalances(WithBalances(r, tag, [bs[0]]), tag, bs[1..]);
      assert bs == [bs[0]] + bs[1..];
      Assoc(r.e.opening, [bs[0]], bs[1..]);
      Assoc(r.e.closing, [bs[0]], bs[1..]);
    }
  }

  lemma {:induction false} TransTokens(date: Day, l: Trans)
    requires IsBare(l.account) && Fits(l.amount)
    ensures var toks := Tokens(Line(TransRecord(date, l)));
            && |toks| == (if l.text == "" then 4 else 6)
            && toks[0] == "#TRANS" && toks[1] == l.account && toks[3] == FormatAmount(l.amount)
            && (if l.text == "" then "" else toks[5]) == Reread(l.text)
  {
    AmountIsBare(l.amount);
    DayIsBare(date);
    RecordTokens(TransRecord(date, l));
    if l.text == "" {
      assert Reread("") == "";
    }
  }

  /** The reader with more lines in its open voucher. */
  function WithLines(r: Reader, lines: seq<Trans>): Reader
    requires r.cur.Some?
  {
    r.(cur := Some(r.cur.value.(lines := r.cur.value.lines + lines)))
  }

  lemma {:induction false} WithLinesTwice(r: Reader, xs: seq<Trans>, ys: seq<Trans>)
    requires r.cur.Some?
    ensures WithLines(WithLines(r, xs), ys) == WithLines(r, xs + ys) && WithLines(r, []) == r
  {
    Assoc(r.cur.value.lines, xs, ys);
  }

  lemma {:induction false} TakeTrans(r: Reader, date: Day, l: Trans)
    requires r.cur.Some? && IsBare(l.account) && Fits(l.amount)
    ensures Take(r, Tokens(Line(TransRecord(date, l)))) == WithLines(r, [RereadTrans(l)])
  {
    TransTokens(date, l);
    AmountRoundTrip(l.amount);
    TakeTransFields(r, Tokens(Line(TransRecord(date, l))));
  }

  lemma {:induction false} TakeTransFields(r: Reader, toks: seq<string>)
    requires r.cur.Some? && |toks| >= 4 && toks[0] == "#TRANS"
    ensures Take(r, toks) == r.(cur := Some(r.cur.value.(lines := r.cur.value.lines
                                  + [Trans(toks[1], ParseAmount(toks[3]), if |toks| >= 6 then toks[5] else "")])))
  {
  }

  lemma {:induction false} TakeTransLines(r: Reader, date: Day, lines: seq<Trans>)
    requires r.cur.Some? && forall i :: 0 <= i < |lines| ==> IsBare(lines[i].account) && Fits(lines[i].amount)
    ensures TakeRecords(r, TransRecords(date, lines)) == WithLines(r, RereadLines(lines))
    decreases |lines|
  {
    if lines == [] {
      WithLinesTwice(r, [], []);
    } else {
      var l, rest := lines[0], lines[1..];
      assert TransRecords(date, lines) == [TransRecord(date, l)] + TransRecords(date, rest);
      TakeTransThen(r, date, l, TransRecords(date, rest));
      TakeTransLines(WithLines(r, [RereadTrans(l)]), date, rest);
      assert [RereadTrans(l)] + RereadLines(rest) == RereadLines(lines);
      WithLinesTwice(r, [RereadTrans(l)], RereadLines(rest));
    }
  }

  lemma {:induction false} TakeTransThen(r: Reader, date: Day, l: Trans, rest: seq<Record>)
    requires r.cur.Some? && IsBare(l.account) && Fits(l.amount)
    ensures TakeRecords(r, [TransRecord(date, l)] + rest) == TakeRecords(WithLines(r, [RereadTrans(l)]), rest)
  {
    TakeCons(r, TransRecord(date, l), rest);
    TakeTrans(r, date, l);
  }

  lemma {:induction false} VerTokens(v: Ver)
    requires SafeVoucher(v)
    ensures Tokens(Line(VerRecord(v))) == ["#VER", v.series, ShowInt(v.number), Ymd(v.date), Reread(v.text)]
  {
    IntIsBare(v.number);
    DayIsBare(v.date);
    RecordTokens(VerRecord(v));
    assert ReadFields(VerRecord(v)) == ["#VER", v.series, ShowInt(v.number), Ymd(v.date), Reread(v.text)];
  }

  lemma {:induction false} TakeVer(r: Reader, v: Ver)
    requires SafeVoucher(v)
    ensures Take(r, Tokens(Line(VerRecord(v)))) == r.(cur := Some(Ver(v.series, v.number, v.date, Reread(v.text), [])))
  {
    VerTokens(v);
    ParseShowInt(v.number);
    DayRoundTrip(v.date);
  }

  lemma {:induction false} TakeOpenBrace(r: Reader)
    ensures Take(r, Tokens(Line([Bare("{")]))) == r
  {
    assert Line([Bare("{")]) == "{";
    assert "{"[..1] == "{" && "{"[1..] == "";
    assert Tokens("{") == ["{"];
  }

  lemma {:induction false} TakeCloseBrace(r: Reader)
    requires r.cur.Some?
    ensures Take(r, Tokens(Line([Bare("}")]))) == Reader(r.e.(vouchers := r.e.vouchers + [r.cur.value]), None)
  {
    RecordTokens([Bare("}")]);
    assert ReadFields([Bare("}")]) == ["}"];
  }

  lemma {:induction false} TakeOne(r: Reader, rec: Record)
    ensures TakeRecords(r, [rec]) == Take(r, Tokens(Line(rec)))
  {
    assert [rec][1..] == [];
  }

  /** The voucher being read once its heading has been. */
  function Begun(r: Reader, v: Ver): Reader {
    r.(cur := Some(Ver(v.series, v.number, v.date, Reread(v.text), [])))
  }

  lemma {:induction false} TakeHeading(r: Reader, v: Ver)
    requires SafeVoucher(v)
    ensures TakeRecords(r, [VerRecord(v), [Bare("{")]]) == Begun(r, v)
  {
    var first, open: Record := VerRecord(v), [Bare("{")];
    assert [first, open] == [first] + [open];
    TakeRecordsAppend(r, [first], [open]);
    TakeOne(r, first);
    TakeVer(r, v);
    TakeOne(Begun(r, v), open);
    TakeOpenBrace(Begun(r, v));
  }

  lemma {:induction false} TakeBody(r: Reader, v: Ver)
    requires SafeVoucher(v)
    ensures TakeRecords(Begun(r, v), TransRecords(v.date, v.lines)) == r.(cur := Some(RereadVoucher(v)))
  {
    TakeTransLines(Begun(r, v), v.date, v.lines);
    Assoc([], [], RereadVoucher(v).lines);
  }

  /** A voucher block is read back as one voucher. */
  lemma {:induction false} TakeVoucher(r: Reader, v: Ver)
    requires SafeVoucher(v) && r.cur.None?
    ensures TakeRecords(r, VerRecords(v)) == r.(e := r.e.(vouchers := r.e.vouchers + [RereadVoucher(v)]))
  {
    var head, body: seq<Record> := [VerRecord(v), [Bare("{")]], TransRecords(v.date, v.lines);
    var close: Record := [Bare("}")];
    TakeRecordsAppend(r, head + body, [close]);
    TakeRecordsAppend(r, head, body);
    TakeHeading(r, v);
    TakeBody(r, v);
    TakeOne(r.(cur := Some(RereadVoucher(v))), close);
    TakeCloseBrace(r.(cur := Some(RereadVoucher(v))));
  }

  /** The reader with more vouchers read. */
  function WithVouchers(r: Reader, vs: seq<Ver>): Reader {
    r.(e := r.e.(vouchers := r.e.vouchers + vs))
  }

  lemma {:induction false} WithVouchersTwice(r: Reader, xs: seq<Ver>, ys: seq<Ver>)
    ensures WithVouchers(WithVouchers(r, xs), ys) == WithVouchers(r, xs + ys) && WithVouchers(r, []) == r
  {
    Assoc(r.e.vouchers, xs, ys);
  }

  lemma {:induction false} TakeVouchers(r: Reader, vs: seq<Ver>)
    requires r.cur.None? && forall i :: 0 <= i < |vs| ==> SafeVoucher(vs[i])
    ensures TakeRecords(r, AllVerRecords(vs)) == WithVouchers(r, RereadVouchers(vs))
    decreases |vs|
  {
    if vs == [] {
      WithVouchersTwice(r, [], []);
    } else {
      var v, rest := vs[0], vs[1..];
      assert AllVerRecords(vs) == VerRecords(v) + AllVerRecords(rest);
      TakeVoucherThen(r, v, AllVerRecords(rest));
      TakeVouchers(WithVouchers(r, [RereadVoucher(v)]), rest);
      assert [RereadVoucher(v)] + RereadVouchers(rest) == RereadVouchers(vs);
      WithVouchersTwice(r, [RereadVoucher(v)], RereadVouchers(rest));
    }
  }

  lemma {:induction false} TakeVoucherThen(r: Reader, v: Ver, rest: seq<Record>)
    requires SafeVoucher(v) && r.cur.None?
    ensures TakeRecords(r, VerRecords(v) + rest) == TakeRecords(WithVouchers(r, [RereadVoucher(v)]), rest)
  {
    TakeVoucher(r, v);
    TakeRecordsAppend(r, VerRecords(v), rest);
  }

  // ---- Header and assembly ----

  predicate Ignored(tag: string) {
    tag == "#FLAGGA" || tag == "#PROGRAM" || tag == "#FORMAT" || tag == "#GEN" || tag == "#SIETYP" || tag == "#KPTYP"
      || tag == "#VALUTA"
  }

  predicate IgnoredRecord(rec: Record) {
    |rec| > 1 && rec[0].Bare? && Ignored(rec[0].word)
  }

  lemma {:induction false} FirstWord(rec: Record) returns (more: seq<string>)
    requires |rec| > 1 && rec[0].Bare? && IsBare(rec[0].word)
    ensures Tokens(Line(rec)) == [rec[0].word] + more
  {
    var w, rest := rec[0].word, " " + Line(rec[1..]);
    assert Line(rec) == w + rest by { Assoc(w, " ", Line(rec[1..])); }
    BareToken(w, rest);
    more := Tokens(rest);
  }

  lemma {:induction false} TakeIgnored(r: Reader, rec: Record)
    requires IgnoredRecord(rec)
    ensures Take(r, Tokens(Line(rec))) == r
  {
    var more := FirstWord(rec);
  }

  lemma {:induction false} TakeAllIgnored(r: Reader, records: seq<Record>)
    requires AllIgnored(records)
    ensures TakeRecords(r, records) == r
    decreases |records|
  {
    if records != [] {
      TakeIgnored(r, records[0]);
      TakeAllIgnored(r, records[1..]);
    }
  }

  lemma {:induction false} TakeOrgNr(r: Reader, orgNr: string)
    requires (orgNr == "" && r.e.orgNr == "") || IsBare(orgNr)
    ensures Take(r, Tokens(Line(OrgNrRecord(orgNr)))) == r.(e := r.e.(orgNr := orgNr))
  {
    var rec := OrgNrRecord(orgNr);
    if orgNr == "" {
      assert Line(rec) == "#ORGNR" + " ";
      BareToken("#ORGNR", " ");
      assert " "[1..] == "";
    } else {
      RecordTokens(rec);
      assert ReadFields(rec) == ["#ORGNR", orgNr];
    }
  }

  lemma {:induction false} TakeName(r: Reader, name: string)
    ensures Take(r, Tokens(Line(NameRecord(name)))) == r.(e := r.e.(companyName := Reread(name)))
  {
    RecordTokens(NameRecord(name));
    assert ReadFields(NameRecord(name)) == ["#FNAMN", Reread(name)];
  }

  lemma {:induction false} YearTokens(start: Day, end: Day)
    ensures Tokens(Line(YearRecord(start, end))) == ["#RAR", "0", Ymd(start), Ymd(end)]
  {
    DayIsBare(start);
    DayIsBare(end);
    FourWords("#RAR", "0", Ymd(start), Ymd(end));
  }

  lemma {:induction false} TakeYear(r: Reader, start: Day, end: Day)
    ensures Take(r, Tokens(Line(YearRecord(start, end)))) == r.(e := r.e.(yearStart := start, yearEnd := end))
  {
    YearTokens(start, end);
    DayRoundTrip(start);
    DayRoundTrip(end);
  }

  lemma {:induction false} TakeIdentity(r: Reader, e: Export)
    requires (e.orgNr == "" && r.e.orgNr == "") || IsBare(e.orgNr)
    ensures TakeRecords(r, Identity(e)) ==
            r.(e := r.e.(companyName := Reread(e.companyName), orgNr := e.orgNr, yearStart := e.yearStart,
                         yearEnd := e.yearEnd))
  {
    var a, b, c := OrgNrRecord(e.orgNr), NameRecord(e.companyName), YearRecord(e.yearStart, e.yearEnd);
    assert Identity(e) == [a] + [b] + [c];
    TakeRecordsAppend(r, [a] + [b], [c]);
    TakeRecordsAppend(r, [a], [b]);
    var r1 := r.(e := r.e.(orgNr := e.orgNr));
    var r2 := r1.(e := r1.e.(companyName := Reread(e.companyName)));
    TakeOne(r, a);
    TakeOrgNr(r, e.orgNr);
    TakeOne(r1, b);
    TakeName(r1, e.companyName);
    TakeOne(r2, c);
    TakeYear(r2, e.yearStart, e.yearEnd);
  }

  predicate AllIgnored(records: seq<Record>) {
    forall i :: 0 <= i < |records| ==> IgnoredRecord(records[i])
  }

  lemma {:induction false} PreambleIgnored(e: Export)
    ensures AllIgnored(Preamble(e))
  {
  }

  lemma {:induction false} ConventionsIgnored()
    ensures AllIgnored(Conventions())
  {
  }

  lemma {:induction false} TakeHeader(e: Export)
    requires e.orgNr == "" || IsBare(e.orgNr)
    ensures TakeRecords(Reader(EMPTY, None), Header(e)) ==
            Reader(EMPTY.(companyName := Reread(e.companyName), orgNr := e.orgNr, yearStart := e.yearStart,
                          yearEnd := e.yearEnd), None)
  {
    var r := Reader(EMPTY, None);
    TakeRecordsAppend(r, Preamble(e) + Identity(e), Conventions());
    TakeRecordsAppend(r, Preamble(e), Identity(e));
    PreambleIgnored(e);
    TakeAllIgnored(r, Preamble(e));
    TakeIdentity(r, e);
    ConventionsIgnored();
    TakeAllIgnored(TakeRecords(r, Identity(e)), Conventions());
  }

  /** Nothing in the records can break a line. */
  predicate AllPrintable(records: seq<Record>) {
    forall i :: 0 <= i < |records| ==> Printable(records[i])
  }

  lemma {:induction false} TwoWords(tag: string, w: string)
    requires NoControl(tag) && NoControl(w)
    ensures Printable([Bare(tag), Bare(w)])
  {
  }

  lemma {:induction false} PreamblePrintable(e: Export)
    ensures AllPrintable(Preamble(e))
  {
    DayIsBare(e.generated);
    TwoWords("#FLAGGA", "0");
    assert Printable([Bare("#PROGRAM"), QuotedText("Pare"), QuotedText("0.1")]);
    TwoWords("#FORMAT", "PC8");
    TwoWords("#GEN", Ymd(e.generated));
    TwoWords("#SIETYP", "4");
  }

  lemma {:induction false} ConventionsPrintable()
    ensures AllPrintable(Conventions())
  {
    TwoWords("#KPTYP", "EUBAS97");
    TwoWords("#VALUTA", "SEK");
  }

  lemma {:induction false} IdentityPrintable(e: Export)
    requires e.orgNr == "" || IsBare(e.orgNr)
    ensures AllPrintable(Identity(e))
  {
    DayIsBare(e.yearStart);
    DayIsBare(e.yearEnd);
  }

  lemma {:induction false} HeaderPrintable(e: Export)
    requires e.orgNr == "" || IsBare(e.orgNr)
    ensures AllPrintable(Header(e))
  {
    PreamblePrintable(e);
    ConventionsPrintable();
    IdentityPrintable(e);
    ThreePrintable(Preamble(e), Identity(e), Conventions());
  }

  lemma {:induction false} ThreePrintable(a: seq<Record>, b: seq<Record>, c: seq<Record>)
    requires AllPrintable(a) && AllPrintable(b) && AllPrintable(c)
    ensures AllPrintable(a + b + c)
  {
  }

  lemma {:induction false} AccountsPrintable(accounts: seq<Account>)
    requires forall i :: 0 <= i < |accounts| ==> IsBare(accounts[i].number)
    ensures AllPrintable(AccountRecords(accounts))
  {
    if accounts != [] {
      AccountsPrintable(accounts[1..]);
    }
  }

  lemma {:induction false} BalancesPrintable(tag: string, bs: seq<Balance>)
    requires NoControl(tag) && SafeBalances(bs)
    ensures AllPrintable(BalanceRecords(tag, bs))
  {
    if bs != [] {
      AmountIsBare(bs[0].amount);
      BalancesPrintable(tag, bs[1..]);
    }
  }

  lemma {:induction false} TransPrintable(date: Day, lines: seq<Trans>)
    requires forall i :: 0 <= i < |lines| ==> IsBare(lines[i].account) && Fits(lines[i].amount)
    ensures AllPrintable(TransRecords(date, lines))
  {
    if lines != [] {
      AmountIsBare(lines[0].amount);
      DayIsBare(date);
      TransPrintable(date, lines[1..]);
    }
  }

  lemma {:induction false} VoucherPrintable(v: Ver)
    requires SafeVoucher(v)
    ensures AllPrintable(VerRecords(v))
  {
    IntIsBare(v.number);
    DayIsBare(v.date);
    TransPrintable(v.date, v.lines);
    var open: seq<Record> := [VerRecord(v), [Bare("{")]];
    assert Printable(open[0]) && Printable(open[1]);
    var close: seq<Record> := [[Bare("}")]];
    assert Printable(close[0]);
    ThreePrintable(open, TransRecords(v.date, v.lines), close);
  }

  lemma {:induction false} VouchersPrintable(vs: seq<Ver>)
    requires forall i :: 0 <= i < |vs| ==> SafeVoucher(vs[i])
    ensures AllPrintable(AllVerRecords(vs))
  {
    if vs != [] {
      VoucherPrintable(vs[0]);
      VouchersPrintable(vs[1..]);
      ThreePrintable(VerRecords(vs[0]), AllVerRecords(vs[1..]), []);
      assert AllVerRecords(vs) == VerRecords(vs[0]) + AllVerRecords(vs[1..]) + [];
    }
  }

  lemma {:induction false} RecordsPrintable(e: Export)
    requires Safe(e)
    ensures AllPrintable(Records(e))
  {
    HeaderPrintable(e);
    AccountsPrintable(e.accounts);
    BalancesPrintable("#IB", e.opening);
    BalancesPrintable("#UB", e.closing);
    BalancesPrintable("#RES", e.results);
    VouchersPrintable(e.vouchers);
    SectionsPrintable(Header(e), AccountRecords(e.accounts), BalanceRecords("#IB", e.opening),
                      BalanceRecords("#UB", e.closing),
                      BalanceRecords("#RES", e.results), AllVerRecords(e.vouchers));
  }

  lemma {:induction false} SectionsPrintable(h: seq<Record>, a: seq<Record>, i: seq<Record>, u: seq<Record>,
      s: seq<Record>, v: seq<Record>)
    requires AllPrintable(h) && AllPrintable(a) && AllPrintable(i) && AllPrintable(u) && AllPrintable(s)
             && AllPrintable(v)
    ensures AllPrintable(h + a + i + u + s + v)
  {
  }

  lemma {:induction false} TakeSections(r: Reader, h: seq<Record>, a: seq<Record>, i: seq<Record>, u: seq<Record>,
      s: seq<Record>, v: seq<Record>)
    ensures TakeRecords(r, h + a + i + u + s + v) ==
            TakeRecords(TakeRecords(TakeRecords(TakeRecords(TakeRecords(TakeRecords(r, h), a), i), u), s), v)
  {
    TakeRecordsAppend(r, h + a + i + u + s, v);
    TakeRecordsAppend(r, h + a + i + u, s);
    TakeRecordsAppend(r, h + a + i, u);
    TakeRecordsAppend(r, h + a, i);
    TakeRecordsAppend(r, h, a);
  }

  /** Reading back a written export gives its company, year, chart, balances and
      vouchers, in order and with every amount, whatever the texts contain: a text
      cannot add, remove or change a record. */
  lemma {:induction false} RoundTrip(e: Export)
    requires Safe(e)
    ensures ParseText(Text(Records(e))) == RereadExport(e)
  {
    var r0 := Reader(EMPTY, None);
    RecordsPrintable(e);
    LinesAreRecords(r0, Records(e));
    TakeSections(r0, Header(e), AccountRecords(e.accounts), BalanceRecords("#IB", e.opening),
                 BalanceRecords("#UB", e.closing),
                 BalanceRecords("#RES", e.results), AllVerRecords(e.vouchers));
    TakeHeader(e);
    var r1 := TakeRecords(r0, Header(e));
    TakeAccounts(r1, e.accounts);
    Assoc([], [], RereadAccounts(e.accounts));
    var r2 := r1.(e := r1.e.(accounts := RereadAccounts(e.accounts)));
    TakeBalanceSections(r2, e);
    var r3 := r2.(e := r2.e.(opening := e.opening, closing := e.closing));
    TakeVouchers(r3, e.vouchers);
    Assoc([], [], RereadVouchers(e.vouchers));
  }

  lemma {:induction false} TakeBalanceSections(r: Reader, e: Export)
    requires r.e.opening == [] && r.e.closing == [] && SafeBalances(e.opening) && SafeBalances(e.closing)
             && SafeBalances(e.results)
    ensures TakeRecords(TakeRecords(TakeRecords(r, BalanceRecords("#IB", e.opening)),
                                    BalanceRecords("#UB", e.closing)), BalanceRecords("#RES", e.results))
         == r.(e := r.e.(opening := e.opening, closing := e.closing))
  {
    var r1 := r.(e := r.e.(opening := e.opening));
    var r2 := r1.(e := r1.e.(closing := e.closing));
    Assoc([], [], e.opening);
    Assoc([], [], e.closing);
    TakeBalances(r, IB, e.opening);
    TakeBalances(r1, UB, e.closing);
    TakeBalances(r2, RES, e.results);
  }

  // ---- The file ----

  /** No line of the file fills the scanner's buffer. */
  predicate ShortLines(e: Export) {
    forall l :: l in Lines(Text(Records(e))) ==> !TooLong(l)
  }

  lemma {:induction false} DecodedEncoded(s: string, page: CodePage)
    requires page.Inverts() && page.Covers(s)
    ensures page.Decoded(page.Encoded(s)) == s
  {
    var bytes := page.Encoded(s);
    assert forall i :: 0 <= i < |s| ==> bytes[i] == page.encode(s[i]).value;
  }

  /** Through the bytes of the file: it is written exactly when every voucher sums to
      zero and the code page has every character, and then it reads back. */
  lemma {:induction false} FileRoundTrip(e: Export, page: CodePage)
    requires Safe(e) && page.Inverts()
    ensures FileOf(e, page).Ok? <==> InBalance(e) && page.Covers(Text(Records(e)))
    ensures FileOf(e, page).Ok? && ShortLines(e) ==>
              ReadFile(FileOf(e, page).value, page) == Parsed(RereadExport(e), false)
  {
    if FileOf(e, page).Ok? && ShortLines(e) {
      var lines := Lines(Text(Records(e)));
      DecodedEncoded(Text(Records(e)), page);
      assert forall i :: 0 <= i < |lines| ==> lines[i] in lines;
      ScannedUpTo(lines, |lines|);
      assert lines[..|lines|] == lines;
      RoundTrip(e);
    }
  }
}
