/** The SIE type 4 format: writer, tokenizer and parser. Text is a sequence of
    characters; the table of code page 437 is a parameter. */
module Sie {
  import opened Prelude
  import Decimal

  // ---- Dates: the number YYYYMMDD of a day in years 0 to 9999 ----

  predicate IsLeap(y: int) {
    y % 4 == 0 && (y % 100 != 0 || y % 400 == 0)
  }

  function DaysIn(y: int, m: int): int {
    if m == 2 then (if IsLeap(y) then 29 else 28)
    else if m == 4 || m == 6 || m == 9 || m == 11 then 30
    else 31
  }

  predicate IsDay(n: int) {
    && 0 <= n < 100_000_000
    && 1 <= n / 100 % 100 <= 12
    && 1 <= n % 100 <= DaysIn(n / 10000, n / 100 % 100)
  }

  /** The zero time, 1 January of year 1: what a failed date parse leaves. */
  const ZERO_DAY: int := 1_01_01

  type Day = n: int | IsDay(n) witness ZERO_DAY

  function Ymd(d: Day): string {
    assert IsDay(d);
    Decimal.Padded(d, 8)
  }

  function ParseYmd(s: string): Day {
    if |s| == 8 && Decimal.AllDigits(s) && IsDay(Decimal.Value(s)) then Decimal.Value(s) else ZERO_DAY
  }

  // ---- Data ----

  datatype Account = Account(number: string, name: string)

  /** Amounts are signed: debit positive, credit negative. */
  datatype Trans = Trans(account: string, amount: int, text: string)

  datatype Ver = Ver(series: string, number: int, date: Day, text: string, lines: seq<Trans>)

  datatype Balance = Balance(account: string, amount: int)

  datatype Export = Export(
    companyName: string, orgNr: string, yearStart: Day, yearEnd: Day, generated: Day,
    accounts: seq<Account>, vouchers: seq<Ver>,
    opening: seq<Balance>, closing: seq<Balance>, results: seq<Balance>)

  // ---- Amounts ----

  /** Signed öre as a decimal. The negation is int64, so MinInt64 stays negative. */
  function FormatAmount(ore: int): string {
    var sign := if ore < 0 then "-" else "";
    var abs := if ore < 0 then Wrap(-ore) else ore;
    sign + Decimal.ShowInt(TruncDiv(abs, 100)) + "." + Decimal.ShowTwo(TruncMod(abs, 100))
  }

  function TrimPrefix(s: string, c: char): string {
    if s != "" && s[0] == c then s[1..] else s
  }

  function ParseAmount(s: string): int {
    var neg := s != "" && s[0] == '-';
    var (whole, frac) := Decimal.CutAt(TrimPrefix(TrimPrefix(s, '-'), '+'), ".");
    var ore := if frac == "" then 0 else Decimal.ParseInt((frac + "00")[..2]);
    var v := Wrap(Decimal.ParseInt(whole) * 100 + ore);
    if neg then Wrap(-v) else v
  }

  // ---- Writer ----

  /** The int64 sum of the amounts. */
  function WrappedSum(lines: seq<Trans>): int {
    if lines == [] then 0 else Wrap(WrappedSum(lines[..|lines| - 1]) + lines[|lines| - 1].amount)
  }

  predicate IsControl(c: char) {
    c < ' ' || c == '\U{7f}'
  }

  /** Control characters become spaces. */
  function Clean(s: string): string {
    seq(|s|, i requires 0 <= i < |s| => if IsControl(s[i]) then ' ' else s[i])
  }

  function Escape(s: string): string {
    if s == "" then ""
    else (if s[0] == '"' then "\\\"" else [s[0]]) + Escape(s[1..])
  }

  function Quote(s: string): string {
    "\"" + Escape(Clean(s)) + "\""
  }

  /** A field of a record: a bare word, a voucher series (`""` when empty), the empty
      object list, or a quoted text. */
  datatype Field = Bare(word: string) | Label(series: string) | EmptyList | QuotedText(text: string)

  function Written(f: Field): string {
    match f
    case Bare(w) => w
    case Label(s) => if s == "" then "\"\"" else s
    case EmptyList => "{}"
    case QuotedText(t) => Quote(t)
  }

  type Record = fields: seq<Field> | |fields| > 0 witness [EmptyList]

  /** The fields separated by blanks. */
  function Line(fields: Record): string {
    if |fields| == 1 then Written(fields[0])
    else Written(fields[0]) + " " + Line(fields[1..])
  }

  function Preamble(e: Export): seq<Record> {
    [ [Bare("#FLAGGA"), Bare("0")],
      [Bare("#PROGRAM"), QuotedText("Pare"), QuotedText("0.1")],
      [Bare("#FORMAT"), Bare("PC8")],
      [Bare("#GEN"), Bare(Ymd(e.generated))],
      [Bare("#SIETYP"), Bare("4")] ]
  }

  function OrgNrRecord(orgNr: string): Record {
    [Bare("#ORGNR"), Bare(orgNr)]
  }

  function NameRecord(name: string): Record {
    [Bare("#FNAMN"), QuotedText(name)]
  }

  function YearRecord(start: Day, end: Day): Record {
    [Bare("#RAR"), Bare("0"), Bare(Ymd(start)), Bare(Ymd(end))]
  }

  function Identity(e: Export): seq<Record> {
    [OrgNrRecord(e.orgNr), NameRecord(e.companyName), YearRecord(e.yearStart, e.yearEnd)]
  }

  function Conventions(): seq<Record> {
    [ [Bare("#KPTYP"), Bare("EUBAS97")],
      [Bare("#VALUTA"), Bare("SEK")] ]
  }

  function Header(e: Export): seq<Record> {
    Preamble(e) + Identity(e) + Conventions()
  }

  function AccountRecord(a: Account): Record {
    [Bare("#KONTO"), Bare(a.number), QuotedText(a.name)]
  }

  function BalanceRecord(tag: string, b: Balance): Record {
    [Bare(tag), Bare("0"), Bare(b.account), Bare(FormatAmount(b.amount))]
  }

  function VerRecord(v: Ver): Record {
    [Bare("#VER"), Label(v.series), Bare(Decimal.ShowInt(v.number)), Bare(Ymd(v.date)), QuotedText(v.text)]
  }

  function TransRecord(date: Day, l: Trans): Record {
    if l.text == "" then [Bare("#TRANS"), Bare(l.account), EmptyList, Bare(FormatAmount(l.amount))]
    else [Bare("#TRANS"), Bare(l.account), EmptyList, Bare(FormatAmount(l.amount)), Bare(Ymd(date)), QuotedText(l.text)]
  }

  function AccountRecords(accounts: seq<Account>): seq<Record> {
    if accounts == [] then [] else [AccountRecord(accounts[0])] + AccountRecords(accounts[1..])
  }

  function BalanceRecords(tag: string, bs: seq<Balance>): seq<Record> {
    if bs == [] then [] else [BalanceRecord(tag, bs[0])] + BalanceRecords(tag, bs[1..])
  }

  function TransRecords(date: Day, lines: seq<Trans>): seq<Record> {
    if lines == [] then [] else [TransRecord(date, lines[0])] + TransRecords(date, lines[1..])
  }

  function VerRecords(v: Ver): seq<Record> {
    [VerRecord(v), [Bare("{")]] + TransRecords(v.date, v.lines) + [[Bare("}")]]
  }

  function AllVerRecords(vs: seq<Ver>): seq<Record> {
    if vs == [] then [] else VerRecords(vs[0]) + AllVerRecords(vs[1..])
  }

  function Records(e: Export): seq<Record> {
    Header(e) + AccountRecords(e.accounts)
    + BalanceRecords("#IB", e.opening) + BalanceRecords("#UB", e.closing) + BalanceRecords("#RES", e.results)
    + AllVerRecords(e.vouchers)
  }

  /** Records as text, each ended by a line feed. */
  function Text(records: seq<Record>): string {
    if records == [] then "" else Line(records[0]) + "\n" + Text(records[1..])
  }

  /** Every voucher sums to zero in int64. */
  predicate InBalance(e: Export) {
    forall i :: 0 <= i < |e.vouchers| ==> WrappedSum(e.vouchers[i].lines) == 0
  }

  method Balances(e: Export) returns (ok: bool)
    ensures ok <==> InBalance(e)
  {
    for i := 0 to |e.vouchers|
      invariant forall k :: 0 <= k < i ==> WrappedSum(e.vouchers[k].lines) == 0
    {
      var lines := e.vouchers[i].lines;
      var sum := 0;
      for j := 0 to |lines|
        invariant sum == WrappedSum(lines[..j])
      {
        assert lines[..j + 1][..j] == lines[..j];
        sum := Wrap(sum + lines[j].amount);
      }
      assert lines[..|lines|] == lines;
      if sum != 0 {
        return false;
      }
    }
    return true;
  }

  // ---- The code page ----

  type Byte = b: int | 0 <= b < 256

  /** A code page encodes some characters, each as one byte. */
  datatype CodePage = CodePage(encode: char -> Option<Byte>, decode: Byte -> char) {
    ghost predicate Inverts() {
      forall c :: encode(c).Some? ==> decode(encode(c).value) == c
    }

    predicate Covers(s: string) {
      forall i :: 0 <= i < |s| ==> encode(s[i]).Some?
    }

    function Encoded(s: string): seq<Byte>
      requires Covers(s)
    {
      seq(|s|, i requires 0 <= i < |s| => encode(s[i]).value)
    }

    function Decoded(bytes: seq<Byte>): string {
      seq(|bytes|, i requires 0 <= i < |bytes| => decode(bytes[i]))
    }
  }

  datatype WriteError = DoesNotBalance | NotEncodable

  /** The bytes of the file, or why there is none. */
  function FileOf(e: Export, page: CodePage): Result<seq<Byte>, WriteError> {
    if !InBalance(e) then Err(DoesNotBalance)
    else if !page.Covers(Text(Records(e))) then Err(NotEncodable)
    else Ok(page.Encoded(Text(Records(e))))
  }

  /** Write refuses an unbalanced voucher and a character outside the code page, and
      otherwise emits the records in order. */
  method Write(e: Export, page: CodePage) returns (r: Result<seq<Byte>, WriteError>)
    ensures r == FileOf(e, page)
  {
    var balanced := Balances(e);
    if !balanced {
      return Err(DoesNotBalance);
    }
    var text := WriteLines(Records(e));
    r := Encode(text, page);
  }

  /** Encoding stops at the first character the code page lacks. */
  method Encode(text: string, page: CodePage) returns (r: Result<seq<Byte>, WriteError>)
    ensures r == if page.Covers(text) then Ok(page.Encoded(text)) else Err(NotEncodable)
  {
    var bytes: seq<Byte> := [];
    for i := 0 to |text|
      invariant |bytes| == i && forall k :: 0 <= k < i ==> page.encode(text[k]) == Some(bytes[k])
    {
      var b := page.encode(text[i]);
      if b.None? {
        return Err(NotEncodable);
      }
      bytes := bytes + [b.value];
    }
    assert bytes == page.Encoded(text);
    return Ok(bytes);
  }

  /** Each record is written followed by a line feed. */
  method WriteLines(records: seq<Record>) returns (buf: string)
    ensures buf == Text(records)
  {
    buf := "";
    for i := 0 to |records|
      invariant buf + Text(records[i..]) == Text(records)
    {
      assert records[i..][1..] == records[i + 1..];
      AppendLine(buf, Line(records[i]), Text(records[i + 1..]));
      buf := buf + Line(records[i]) + "\n";
    }
  }

  lemma {:induction false} AppendLine(buf: string, r: string, rest: string)
    ensures buf + (r + "\n" + rest) == buf + r + "\n" + rest
  {
  }

  // ---- Tokenizer ----

  predicate IsBlank(c: char) {
    c == ' ' || c == '\t'
  }

  /** Length of the leading run of non-blank characters. */
  function BareLength(s: string): (n: nat)
    ensures n <= |s|
  {
    if s == "" || IsBlank(s[0]) then 0 else 1 + BareLength(s[1..])
  }

  /** Length up to the brace that closes `depth` open ones, or all of s. */
  function BraceLength(s: string, depth: nat): (n: nat)
    ensures n <= |s|
  {
    if s == "" then 0
    else if s[0] == '{' then 1 + BraceLength(s[1..], depth + 1)
    else if s[0] == '}' && depth <= 1 then 1
    else 1 + BraceLength(s[1..], if s[0] == '}' then depth - 1 else depth)
  }

  /** The unescaped text up to the closing quote, and what follows it. */
  function Quoted(s: string): (r: (string, string))
    ensures |r.1| <= |s|
  {
    if s == "" then ("", "")
    else if s[0] == '\\' && |s| > 1 && s[1] == '"' then
      var r := Quoted(s[2..]);
      ("\"" + r.0, r.1)
    else if s[0] == '"' then ("", s[1..])
    else
      var r := Quoted(s[1..]);
      ([s[0]] + r.0, r.1)
  }

  function Tokens(s: string): seq<string>
    decreases |s|
  {
    if s == "" then []
    else if IsBlank(s[0]) then Tokens(s[1..])
    else if s[0] == '"' then [Quoted(s[1..]).0] + Tokens(Quoted(s[1..]).1)
    else if s[0] == '{' then
      var n := 1 + BraceLength(s[1..], 1);
      [s[..n]] + Tokens(s[n..])
    else
      var n := 1 + BareLength(s[1..]);
      [s[..n]] + Tokens(s[n..])
  }

  /** The inner loop of the tokenizer on a quoted string that starts at i. */
  method ReadQuoted(line: string, from: nat) returns (sb: string, i: nat)
    requires from <= |line|
    ensures from <= i <= |line| && Quoted(line[from..]) == (sb, line[i..])
  {
    sb, i := "", from;
    ghost var body := line[from..];
    Assoc("", "", Quoted(body).0);
    while i < |line|
      invariant from <= i <= |line|
      invariant Quoted(body) == (sb + Quoted(line[i..]).0, Quoted(line[i..]).1)
    {
      assert line[i..][1..] == line[i + 1..];
      if line[i] == '\\' && i + 1 < |line| && line[i + 1] == '"' {
        assert line[i..][2..] == line[i + 2..];
        Assoc(sb, "\"", Quoted(line[i + 2..]).0);
        sb := sb + "\"";
        i := i + 2;
        continue;
      }
      if line[i] == '"' {
        Assoc(sb, "", "");
        i := i + 1;
        return;
      }
      Assoc(sb, [line[i]], Quoted(line[i + 1..]).0);
      sb := sb + [line[i]];
      i := i + 1;
    }
    assert line[i..] == "";
    Assoc(sb, "", "");
  }

  lemma {:induction false} Assoc<T>(a: seq<T>, b: seq<T>, c: seq<T>)
    ensures a + (b + c) == (a + b) + c
    ensures [] + c == c && a + [] == a
  {
  }

  /** The inner loop on an object list whose opening brace is at `start`. */
  method ReadBraces(line: string, start: nat) returns (i: nat)
    requires start < |line| && line[start] == '{'
    ensures i == start + 1 + BraceLength(line[start + 1..], 1)
  {
    var depth := 1;
    i := start + 1;
    while i < |line|
      invariant start < i <= |line| && depth >= 1
      invariant BraceLength(line[start + 1..], 1) == i - start - 1 + BraceLength(line[i..], depth)
    {
      assert line[i..][1..] == line[i + 1..];
      if line[i] == '{' {
        depth := depth + 1;
      }
      if line[i] == '}' {
        depth := depth - 1;
        if depth == 0 {
          i := i + 1;
          return;
        }
      }
      i := i + 1;
    }
  }

  /** The inner loop on a bare token that starts at `start`. */
  method ReadBare(line: string, start: nat) returns (i: nat)
    requires start < |line|
    ensures i == start + 1 + BareLength(line[start + 1..])
  {
    i := start + 1;
    while i < |line| && line[i] != ' ' && line[i] != '\t'
      invariant start < i <= |line|
      invariant BareLength(line[start + 1..]) == i - start - 1 + BareLength(line[i..])
    {
      assert line[i..][1..] == line[i + 1..];
      i := i + 1;
    }
  }

  /** The token that starts at a non-blank. */
  method ReadToken(line: string, start: nat) returns (tok: string, i: nat)
    requires start < |line| && !IsBlank(line[start])
    ensures start < i <= |line| && Tokens(line[start..]) == [tok] + Tokens(line[i..])
  {
    if line[start] == '"' {
      tok, i := ReadQuoted(line, start + 1);
      assert line[start..][1..] == line[start + 1..];
    } else {
      if line[start] == '{' {
        i := ReadBraces(line, start);
      } else {
        i := ReadBare(line, start);
      }
      tok := line[start..i];
      WordOrList(line, start, i);
    }
  }

  lemma {:induction false} WordOrList(line: string, start: nat, i: nat)
    requires start < |line| && !IsBlank(line[start]) && line[start] != '"'
    requires i == start + 1
                  + if line[start] == '{' then BraceLength(line[start + 1..], 1) else BareLength(line[start + 1..])
    ensures i <= |line| && Tokens(line[start..]) == [line[start..i]] + Tokens(line[i..])
  {
    var rest := line[start..];
    assert rest[1..] == line[start + 1..];
    assert rest[..i - start] == line[start..i] && rest[i - start..] == line[i..];
  }

  method Tokenize(line: string) returns (toks: seq<string>)
    ensures toks == Tokens(line)
  {
    toks := [];
    var i := 0;
    assert line[0..] == line;
    while i < |line|
      invariant 0 <= i <= |line|
      invariant toks + Tokens(line[i..]) == Tokens(line)
      decreases |line| - i
    {
      if line[i] == ' ' || line[i] == '\t' {
        assert line[i..][1..] == line[i + 1..];
        i := i + 1;
      } else {
        var tok, next := ReadToken(line, i);
        Assoc(toks, [tok], Tokens(line[next..]));
        toks, i := toks + [tok], next;
      }
    }
    assert line[i..] == "";
    Assoc(toks, [], []);
  }

  // ---- Parser ----

  /** Trailing carriage returns are dropped from every line. */
  function TrimCr(s: string): string {
    if s != "" && s[|s| - 1] == '\r' then TrimCr(s[..|s| - 1]) else s
  }

  function LineLength(text: string): (n: nat)
    ensures n <= |text| && (n < |text| ==> text[n] == '\n')
  {
    if text == "" || text[0] == '\n' then 0 else 1 + LineLength(text[1..])
  }

  function Lines(text: string): seq<string>
    decreases |text|
  {
    if text == "" then []
    else
      var n := LineLength(text);
      [text[..n]] + Lines(text[if n < |text| then n + 1 else n..])
  }

  /** What has been read, and the voucher whose block is open. */
  datatype Reader = Reader(e: Export, cur: Option<Ver>)

  const EMPTY: Export := Export("", "", ZERO_DAY, ZERO_DAY, ZERO_DAY, [], [], [], [], [])

  function OpenVoucher(toks: seq<string>): Ver {
    Ver(if |toks| > 1 then toks[1] else "",
        if |toks| > 2 then Decimal.ParseInt(toks[2]) else 0,
        if |toks| > 3 then ParseYmd(toks[3]) else ZERO_DAY,
        if |toks| > 4 then toks[4] else "",
        [])
  }

  /** The effect of one record. */
  function Take(r: Reader, toks: seq<string>): Reader {
    if toks == [] then r
    else if toks[0] == "#FNAMN" then
      if |toks| > 1 then r.(e := r.e.(companyName := toks[1])) else r
    else if toks[0] == "#ORGNR" then
      if |toks| > 1 then r.(e := r.e.(orgNr := toks[1])) else r
    else if toks[0] == "#RAR" then
      if |toks| > 3 && toks[1] == "0"
        then r.(e := r.e.(yearStart := ParseYmd(toks[2]), yearEnd := ParseYmd(toks[3]))) else r
    else if toks[0] == "#KONTO" then
      if |toks| > 2 then r.(e := r.e.(accounts := r.e.accounts + [Account(toks[1], toks[2])])) else r
    else if toks[0] == "#IB" then
      if |toks| > 3 && toks[1] == "0"
        then r.(e := r.e.(opening := r.e.opening + [Balance(toks[2], ParseAmount(toks[3]))])) else r
    else if toks[0] == "#UB" then
      if |toks| > 3 && toks[1] == "0"
        then r.(e := r.e.(closing := r.e.closing + [Balance(toks[2], ParseAmount(toks[3]))])) else r
    else if toks[0] == "#VER" then r.(cur := Some(OpenVoucher(toks)))
    else if toks[0] == "}" then
      if r.cur.Some? then Reader(r.e.(vouchers := r.e.vouchers + [r.cur.value]), None) else r
    else if toks[0] == "#TRANS" then
      if r.cur.Some? && |toks| >= 4 then
        var l := Trans(toks[1], ParseAmount(toks[3]), if |toks| >= 6 then toks[5] else "");
        r.(cur := Some(r.cur.value.(lines := r.cur.value.lines + [l])))
      else r
    else r
  }

  function TakeLine(r: Reader, line: string): Reader {
    Take(r, Tokens(TrimCr(line)))
  }

  function TakeAll(r: Reader, lines: seq<string>): Reader
    decreases |lines|
  {
    if lines == [] then r else TakeAll(TakeLine(r, lines[0]), lines[1..])
  }

  function ParseText(text: string): Export {
    TakeAll(Reader(EMPTY, None), Lines(text)).e
  }

  /** The scanner's buffer, in bytes of UTF-8: a line that fills it stops the scan. */
  const MAX_LINE := 4 * 1024 * 1024

  function Utf8Length(s: string): nat {
    if s == "" then 0
    else Utf8Length(s[..|s| - 1]) + Utf8Width(s[|s| - 1])
  }

  function Utf8Width(c: char): nat {
    if c < '\U{80}' then 1 else if c < '\U{800}' then 2 else if c < '\U{10000}' then 3 else 4
  }

  predicate TooLong(line: string) {
    Utf8Length(line) >= MAX_LINE
  }

  /** The lines before the first one that is too long. */
  function Scanned(lines: seq<string>): (n: nat)
    ensures n <= |lines| && (n < |lines| ==> TooLong(lines[n]))
    ensures forall i :: 0 <= i < n ==> !TooLong(lines[i])
  {
    if lines == [] || TooLong(lines[0]) then 0 else 1 + Scanned(lines[1..])
  }

  /** What Parse returns: the export read so far, and whether a line was too long. */
  datatype Parsed = Parsed(e: Export, tooLong: bool)

  function ReadFile(bytes: seq<Byte>, page: CodePage): Parsed {
    var lines := Lines(page.Decoded(bytes));
    Parsed(TakeAll(Reader(EMPTY, None), lines[..Scanned(lines)]).e, Scanned(lines) < |lines|)
  }

  lemma {:induction false} ScannedUpTo(lines: seq<string>, k: nat)
    requires k <= |lines| && forall i :: 0 <= i < k ==> !TooLong(lines[i])
    ensures k < |lines| && TooLong(lines[k]) ==> Scanned(lines) == k
    ensures k == |lines| ==> Scanned(lines) == k
  {
    var n := Scanned(lines);
  }

  /** Parse: one pass over the lines with a current-voucher pointer. */
  method Parse(bytes: seq<Byte>, page: CodePage) returns (e: Export, tooLong: bool)
    ensures Parsed(e, tooLong) == ReadFile(bytes, page)
  {
    e, tooLong := EMPTY, false;
    var cur: Option<Ver> := None;
    var lines := Lines(page.Decoded(bytes));
    for i := 0 to |lines|
      invariant forall k :: 0 <= k < i ==> !TooLong(lines[k])
      invariant Reader(e, cur) == TakeAll(Reader(EMPTY, None), lines[..i])
    {
      if TooLong(lines[i]) {
        ScannedUpTo(lines, i);
        return e, true;
      }
      TakeSnoc(Reader(EMPTY, None), lines[..i], lines[i]);
      assert lines[..i + 1] == lines[..i] + [lines[i]];
      var toks := Tokenize(TrimCr(lines[i]));
      e, cur := ReadRecord(e, cur, toks);
    }
    ScannedUpTo(lines, |lines|);
    assert lines[..|lines|] == lines;
  }

  /** The body of the loop: what one record does. */
  method ReadRecord(e0: Export, cur0: Option<Ver>, toks: seq<string>) returns (e: Export, cur: Option<Ver>)
    ensures Reader(e, cur) == Take(Reader(e0, cur0), toks)
  {
    e, cur := e0, cur0;
    if |toks| == 0 {
      return;
    }
    match toks[0] {
      case "#FNAMN" =>
        if |toks| > 1 {
          e := e.(companyName := toks[1]);
        }
      case "#ORGNR" =>
        if |toks| > 1 {
          e := e.(orgNr := toks[1]);
        }
      case "#RAR" =>
        if |toks| > 3 && toks[1] == "0" {
          e := e.(yearStart := ParseYmd(toks[2]), yearEnd := ParseYmd(toks[3]));
        }
      case "#KONTO" =>
        if |toks| > 2 {
          e := e.(accounts := e.accounts + [Account(toks[1], toks[2])]);
        }
      case "#IB" =>
        if |toks| > 3 && toks[1] == "0" {
          e := e.(opening := e.opening + [Balance(toks[2], ParseAmount(toks[3]))]);
        }
      case "#UB" =>
        if |toks| > 3 && toks[1] == "0" {
          e := e.(closing := e.closing + [Balance(toks[2], ParseAmount(toks[3]))]);
        }
      case "#VER" =>
        cur := Some(OpenVoucher(toks));
      case "}" =>
        if cur.Some? {
          e := e.(vouchers := e.vouchers + [cur.value]);
          cur := None;
        }
      case "#TRANS" =>
        if cur.Some? && |toks| >= 4 {
          var l := Trans(toks[1], ParseAmount(toks[3]), "");
          if |toks| >= 6 {
            l := l.(text := toks[5]);
          }
          cur := Some(cur.value.(lines := cur.value.lines + [l]));
        }
      case _ =>
    }
  }

  lemma {:induction false} TakeSnoc(r: Reader, lines: seq<string>, line: string)
    ensures TakeAll(r, lines + [line]) == TakeLine(TakeAll(r, lines), line)
    decreases |lines|
  {
    if lines == [] {
      assert [line][1..] == [];
    } else {
      assert (lines + [line])[1..] == lines[1..] + [line];
      TakeSnoc(TakeLine(r, lines[0]), lines[1..], line);
    }
  }
}
