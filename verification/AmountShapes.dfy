/** Exactly which amount cells the two bank parsers accept, and what each is read as. */
module AmountShapes {
  import opened Prelude
  import opened Decimal
  import opened BankAmounts

  // ---- The numerals that either parser accepts ----

  /** Digits; digits on both sides of one separator; digits grouped by two separators or
      more; and grouped digits with decimals after the other separator. */
  datatype Numeral =
    | Whole(w: string)
    | Point(w: string, sep: char, f: string)
    | Groups(n: nat, sep: char)
    | GroupsPoint(n: nat, sep: char, f: string)

  predicate IsSeparator(c: char) {
    c == '.' || c == ','
  }

  predicate IsNumber(s: string) {
    s != "" && AllDigits(s)
  }

  predicate WellFormed(x: Numeral) {
    match x
    case Whole(w) => IsNumber(w)
    case Point(w, sep, f) => IsNumber(w) && IsSeparator(sep) && IsNumber(f)
    case Groups(n, sep) => n >= 1_000_000 && IsSeparator(sep)
    case GroupsPoint(n, sep, f) => n >= 1000 && IsSeparator(sep) && IsNumber(f)
  }

  function Other(sep: char): char {
    if sep == '.' then ',' else '.'
  }

  function Text(x: Numeral): string {
    match x
    case Whole(w) => w
    case Point(w, sep, f) => w + [sep] + f
    case Groups(n, sep) => GroupedShow(n, sep)
    case GroupsPoint(n, sep, f) => GroupedShow(n, sep) + [Other(sep)] + f
  }

  /** One to three digits without a leading zero, then three: thousands, or decimals. */
  predicate Ambiguous(w: string, f: string) {
    1 <= |w| <= 3 && w[0] != '0' && |f| == 3
  }

  /** The ISO parser takes the one separator as the decimal point, but refuses a comma
      that could be grouping. */
  function IsoAmount(x: Numeral, neg: bool): Option<int>
    requires WellFormed(x)
  {
    match x
    case Whole(w) => Expected(Value(w), 0, neg)
    case Point(w, sep, f) =>
      if sep == ',' && Ambiguous(w, f) then None else Expected(Value(w), Cents(f), neg)
    case _ => None
  }

  /** The Swedish parser also takes grouping, and a dot that could be grouping as that. */
  function SwedishAmount(x: Numeral, neg: bool): Option<int>
    requires WellFormed(x)
  {
    match x
    case Whole(w) => Expected(Value(w), 0, neg)
    case Point(w, sep, f) =>
      if !Ambiguous(w, f) then Expected(Value(w), Cents(f), neg)
      else if sep == ',' then None
      else Expected(Value(w) * 1000 + Value(f), 0, neg)
    case Groups(n, _) => Expected(n, 0, neg)
    case GroupsPoint(n, _, f) => Expected(n, Cents(f), neg)
  }

  /** Decimals are cut to two digits; a single one is tenths. */
  lemma {:induction false} CentsAre(f: string)
    requires AllDigits(f)
    ensures |f| == 0 ==> Cents(f) == 0
    ensures |f| == 1 ==> Cents(f) == 10 * Value(f)
    ensures |f| >= 2 ==> Cents(f) == Value(f[..2])
  {
    if |f| >= 2 {
      assert f[..2][..1] == [f[0]] && f[..2][..1][..0] == "";
      assert Value(f[..2][..1]) == DigitValue(f[0]);
    } else if |f| == 1 {
      assert f[..0] == "";
    }
  }

  // ---- Reading each shape ----

  lemma {:induction false} WholeCounts(w: string)
    requires AllDigits(w)
    ensures Count(w, '.') == 0 && Count(w, ',') == 0 && CutAt(w, ".,") == (w, "")
  {
    NoneIn(w, '.');
    NoneIn(w, ',');
    CutNowhere(w, ".,");
  }

  lemma {:induction false} PointCounts(w: string, sep: char, f: string)
    requires AllDigits(w) && AllDigits(f) && IsSeparator(sep)
    ensures var t := w + [sep] + f;
            && Count(t, sep) == 1 && Count(t, Other(sep)) == 0
            && CutAt(t, ".,") == (w, f) && CutAt(t, [sep]) == (w, f)
            && (Grouped(t, sep) <==> Ambiguous(w, f)) && Without(t, sep) == w + f
  {
    WholeCounts(w);
    WholeCounts(f);
    CountOf(w, sep, f, sep);
    CountOf(w, sep, f, Other(sep));
    CutAfter(w, sep, f, ".,");
    CutAfter(w, sep, f, [sep]);
    PointGrouped(w, sep, f);
    JoinDigitsBare(w, sep, f);
  }

  lemma {:induction false} PointGrouped(w: string, sep: char, f: string)
    requires AllDigits(w) && AllDigits(f) && IsSeparator(sep)
    ensures Grouped(w + [sep] + f, sep) <==> Ambiguous(w, f)
  {
    var parts := Split(w + [sep] + f, sep);
    SplitAt(w, f, sep);
    SplitNone(w, sep);
    SplitNone(f, sep);
    assert |parts| == 2 && parts[0] == w && parts[1] == f;
    assert GroupParts(parts) ==> IsLaterGroup(parts[1]);
  }

  lemma {:induction false} JoinDigitsBare(w: string, sep: char, f: string)
    requires AllDigits(w) && AllDigits(f) && IsSeparator(sep)
    ensures Without(w + [sep] + f, sep) == w + f
  {
    WithoutNone(w, sep);
    JoinDigits(w, f, sep);
  }

  lemma {:induction false} GroupsCounts(n: nat, sep: char)
    requires n >= 1000 && IsSeparator(sep)
    ensures var t := GroupedShow(n, sep);
            && Count(t, Other(sep)) == 0 && Count(t, sep) >= 1 && (Count(t, sep) >= 2 <==> n >= 1_000_000)
            && Grouped(t, sep) && IsNumber(Without(t, sep)) && Value(Without(t, sep)) == n
  {
    GroupedShowDigits(n, sep);
    GroupedIff(GroupedShow(n, sep), sep);
    CountNone(GroupedShow(n, sep), Other(sep));
    GroupedCount(n, sep);
    if n >= 1_000_000 {
      GroupedCount(n / 1000, sep);
    }
  }

  lemma {:induction false} GroupedCount(n: nat, sep: char)
    requires IsSeparator(sep)
    ensures n < 1000 ==> Count(GroupedShow(n, sep), sep) == 0
    ensures n >= 1000 ==> Count(GroupedShow(n, sep), sep) == Count(GroupedShow(n / 1000, sep), sep) + 1
    ensures 1000 <= n < 1_000_000 ==> Count(GroupedShow(n, sep), sep) == 1
  {
    if n < 1000 {
      ShowValue(n);
      NoneIn(Show(n), sep);
    } else {
      PowerMonotone(3, 3);
      PaddedValue(n % 1000, 3);
      NoneIn(Padded(n % 1000, 3), sep);
      CountOf(GroupedShow(n / 1000, sep), sep, Padded(n % 1000, 3), sep);
      if n < 1_000_000 {
        ShowValue(n / 1000);
        NoneIn(Show(n / 1000), sep);
      }
    }
  }

  /** What the ISO parser makes of a numeral. */
  lemma {:induction false} IsoReads(x: Numeral, neg: bool)
    requires WellFormed(x)
    ensures IsoToken(Text(x), neg) == IsoAmount(x, neg)
  {
    match x {
      case Whole(w) =>
        WholeCounts(w);
        OreIs(w, "", Value(w), 0, neg);
      case Point(w, sep, f) =>
        PointCounts(w, sep, f);
        CentsBound(f);
        OreIs(w, f, Value(w), Cents(f), neg);
      case Groups(n, sep) =>
        GroupsCounts(n, sep);
      case GroupsPoint(n, sep, f) =>
        GroupsCounts(n, sep);
        CountOf(GroupedShow(n, sep), Other(sep), f, sep);
        CountOf(GroupedShow(n, sep), Other(sep), f, Other(sep));
    }
  }

  /** What the Swedish parser makes of one. */
  lemma {:induction false} SwedishReads(x: Numeral, neg: bool)
    requires WellFormed(x)
    ensures SwedishToken(Text(x), neg) == SwedishAmount(x, neg)
  {
    match x {
      case Whole(w) =>
        WholeCounts(w);
        OreIs(w, "", Value(w), 0, neg);
      case Point(w, sep, f) => ReadsPoint(w, sep, f, neg);
      case Groups(n, sep) =>
        GroupsCounts(n, sep);
        OreIs(Without(GroupedShow(n, sep), sep), "", n, 0, neg);
      case GroupsPoint(n, sep, f) => ReadsGroups(n, sep, f, neg);
    }
  }

  lemma {:induction false} ReadsPoint(w: string, sep: char, f: string, neg: bool)
    requires WellFormed(Point(w, sep, f))
    ensures SwedishToken(w + [sep] + f, neg) == SwedishAmount(Point(w, sep, f), neg)
  {
    PointCounts(w, sep, f);
    CentsBound(f);
    OreIs(w, f, Value(w), Cents(f), neg);
    if Ambiguous(w, f) && sep == '.' {
      ValueAppend(w, f);
      PowerMonotone(3, 3);
      OreIs(w + f, "", Value(w) * 1000 + Value(f), 0, neg);
    }
  }

  lemma {:induction false} ReadsGroups(n: nat, sep: char, f: string, neg: bool)
    requires WellFormed(GroupsPoint(n, sep, f))
    ensures SwedishToken(GroupedShow(n, sep) + [Other(sep)] + f, neg) == Expected(n, Cents(f), neg)
  {
    var g, dec := GroupedShow(n, sep), Other(sep);
    GroupsCounts(n, sep);
    WholeCounts(f);
    CountOf(g, dec, f, sep);
    CountOf(g, dec, f, dec);
    GroupsThenPoint(g, dec, f);
    CountNone(g, dec);
    CutAfter(g, dec, f, [dec]);
    CentsBound(f);
    OreIs(Without(g, sep), f, n, Cents(f), neg);
  }

  lemma {:induction false} GroupsThenPoint(g: string, dec: char, f: string)
    requires AllDigits(f) && IsSeparator(dec) && Count(g, dec) == 0
    ensures LastIndex(g + [dec] + f, Other(dec)) < LastIndex(g + [dec] + f, dec)
  {
    WholeCounts(f);
    LastIndexSkips(g + [dec], f, dec);
    LastIndexSkips(g + [dec], f, Other(dec));
    LastIndexBound(g, Other(dec));
    assert (g + [dec])[..|g|] == g;
  }

  // ---- Nothing else is accepted ----

  lemma {:induction false} CutOnce(t: string, c: char) returns (a: string, b: string)
    requires Count(t, c) >= 1
    ensures (a, b) == CutAt(t, [c]) && t == a + [c] + b && Count(a, c) == 0 && Count(b, c) == Count(t, c) - 1
  {
    if t[0] == c {
      a, b := "", t[1..];
      assert t == "" + [c] + b;
    } else {
      a, b := CutOnce(t[1..], c);
      var tail := a;
      a := [t[0]] + tail;
      assert t == [t[0]] + t[1..];
      assert a + [c] + b == [t[0]] + (tail + [c] + b);
      assert a[1..] == tail;
    }
  }

  lemma {:induction false} NoSeparators(t: string)
    requires AllAmount(t) && Count(t, '.') == 0 && Count(t, ',') == 0
    ensures AllDigits(t)
  {
    CountNone(t, '.');
    CountNone(t, ',');
  }

  /** A token with one separator is a decimal numeral. */
  lemma {:induction false} OneSeparator(t: string, sep: char) returns (x: Numeral)
    requires IsToken(t) && IsSeparator(sep) && Count(t, sep) == 1 && Count(t, Other(sep)) == 0
    ensures x.Point? && x.sep == sep && WellFormed(x) && Text(x) == t
  {
    var w, f := CutOnce(t, sep);
    CountOf(w, sep, f, Other(sep));
    assert forall i :: 0 <= i < |w| ==> w[i] == t[i];
    assert forall i :: 0 <= i < |f| ==> f[i] == t[|w| + 1 + i];
    NoSeparators(w);
    NoSeparators(f);
    x := Point(w, sep, f);
  }

  /** Whatever the ISO parser accepts is a numeral, so IsoReads says what it is read as. */
  lemma {:induction false} IsoReadsOnly(t: string, neg: bool) returns (x: Numeral)
    requires IsToken(t) && IsoToken(t, neg).Some?
    ensures WellFormed(x) && Text(x) == t && IsoToken(t, neg) == IsoAmount(x, neg)
  {
    if Count(t, '.') == 1 {
      x := OneSeparator(t, '.');
    } else if Count(t, ',') == 1 {
      x := OneSeparator(t, ',');
    } else {
      NoSeparators(t);
      x := Whole(t);
    }
    IsoReads(x, neg);
  }

  lemma {:induction false} GroupsOf(s: string, sep: char) returns (n: nat)
    requires IsSeparator(sep) && Grouped(s, sep)
    ensures n >= 1000 && s == GroupedShow(n, sep)
  {
    GroupedIff(s, sep);
    n :| n >= 1000 && s == GroupedShow(n, sep);
  }

  /** The same of the Swedish parser. */
  lemma {:induction false} SwedishReadsOnly(t: string, neg: bool) returns (x: Numeral)
    requires IsToken(t) && SwedishToken(t, neg).Some?
    ensures WellFormed(x) && Text(x) == t && SwedishToken(t, neg) == SwedishAmount(x, neg)
  {
    var dots, commas := Count(t, '.'), Count(t, ',');
    if dots == 0 && commas == 0 {
      NoSeparators(t);
      x := Whole(t);
    } else if dots > 0 && commas > 0 {
      var dec := if LastIndex(t, '.') > LastIndex(t, ',') then '.' else ',';
      var w, f := CutOnce(t, dec);
      var n := GroupsOf(w, Other(dec));
      assert f != "" by {
        assert t[|t| - 1] != dec;
      }
      x := GroupsPoint(n, Other(dec), f);
    } else if dots + commas == 1 {
      x := OneSeparator(t, if dots == 1 then '.' else ',');
    } else {
      var sep := if commas > 1 then ',' else '.';
      var n := GroupsOf(t, sep);
      GroupsCounts(n, sep);
      x := Groups(n, sep);
    }
    SwedishReads(x, neg);
  }

  // ---- Cells ----

  /** Unicode white space, by code point. */
  const WHITE_SPACE: set<int> :=
    {9, 10, 11, 12, 13, 32, 0x85, 0xa0, 0x1680, 0x2000, 0x2001, 0x2002, 0x2003, 0x2004, 0x2005, 0x2006, 0x2007,
     0x2008, 0x2009, 0x200a, 0x2028, 0x2029, 0x202f, 0x205f, 0x3000}

  lemma {:induction false} SpacesAre(c: char)
    ensures IsSpace(c) <==> c as int in WHITE_SPACE
  {
  }

  lemma {:induction false} SpacelessWhole(s: string)
    requires forall i :: 0 <= i < |s| ==> s[i] as int !in WHITE_SPACE
    ensures WithoutSpace(s) == s
  {
    if s != "" {
      SpacesAre(s[0]);
      SpacelessWhole(s[1..]);
      assert [s[0]] + s[1..] == s;
    }
  }

  /** A token with a sign in front, a minus behind, and parentheses around it, each
      present or not. */
  function Dressed(t: string, sign: string, trail: bool, paren: bool): string {
    (if paren then "(" else "") + sign + t + Behind(trail) + (if paren then ")" else "")
  }

  /** Currency names and other marks around an amount. */
  predicate IsMark(s: string) {
    forall i :: 0 <= i < |s| ==> s[i] !in "0123456789.,+-()"
  }

  lemma {:induction false} KeptChars(c: char)
    ensures Kept(c) <==> c in "0123456789.,+-()"
  {
    var all := "0123456789.,+-()";
    assert all[0] == '0' && all[1] == '1' && all[2] == '2' && all[3] == '3' && all[4] == '4' && all[5] == '5';
    assert all[6] == '6' && all[7] == '7' && all[8] == '8' && all[9] == '9' && all[10] == '.' && all[11] == ',';
    assert all[12] == '+' && all[13] == '-' && all[14] == '(' && all[15] == ')';
  }

  lemma {:induction false} MarksTrimmed(u: string, s: string, v: string)
    requires IsMark(u) && IsMark(v) && s != "" && Kept(s[0]) && Kept(s[|s| - 1])
    ensures TrimRight(TrimLeft(u + s + v)) == s
  {
    LeftTrimmed(u, s + v);
    assert u + s + v == u + (s + v);
    RightTrimmed(s, v);
  }

  lemma {:induction false} LeftTrimmed(u: string, s: string)
    requires IsMark(u) && s != "" && Kept(s[0])
    ensures TrimLeft(u + s) == s
  {
    if u == "" {
      assert u + s == s;
    } else {
      KeptChars(u[0]);
      LeftTrimmed(u[1..], s);
      assert (u + s)[1..] == u[1..] + s;
    }
  }

  lemma {:induction false} RightTrimmed(s: string, v: string)
    requires IsMark(v) && s != "" && Kept(s[|s| - 1])
    ensures TrimRight(s + v) == s
  {
    if v == "" {
      assert s + v == s;
    } else {
      var n := |v| - 1;
      KeptChars(v[n]);
      RightTrimmed(s, v[..n]);
      assert (s + v)[..|s + v| - 1] == s + v[..n];
    }
  }

  lemma {:induction false} TrimmedParts(s: string) returns (u: string, v: string)
    ensures IsMark(u) && IsMark(v) && s == u + TrimRight(TrimLeft(s)) + v
  {
    u := LeftMark(s);
    v := RightMark(TrimLeft(s));
    assert u + TrimRight(TrimLeft(s)) + v == u + (TrimRight(TrimLeft(s)) + v);
  }

  lemma {:induction false} LeftMark(s: string) returns (u: string)
    ensures IsMark(u) && s == u + TrimLeft(s)
  {
    if s != "" && !Kept(s[0]) {
      KeptChars(s[0]);
      var rest := LeftMark(s[1..]);
      u := [s[0]] + rest;
      assert s == [s[0]] + s[1..] == [s[0]] + (rest + TrimLeft(s[1..])) == u + TrimLeft(s);
    } else {
      u := "";
    }
  }

  lemma {:induction false} RightMark(s: string) returns (v: string)
    ensures IsMark(v) && s == TrimRight(s) + v
  {
    if s != "" && !Kept(s[|s| - 1]) {
      var n := |s| - 1;
      KeptChars(s[n]);
      var rest := RightMark(s[..n]);
      v := rest + [s[n]];
      assert s == s[..n] + [s[n]] == (TrimRight(s[..n]) + rest) + [s[n]] == TrimRight(s) + v;
    } else {
      v := "";
    }
  }

  predicate IsSignText(sign: string) {
    sign == "" || sign == "+" || sign == "-"
  }

  function Behind(trail: bool): string {
    if trail then "-" else ""
  }

  lemma {:induction false} TrailRead(t: string, trail: bool)
    requires IsToken(t)
    ensures Untrail(t + Behind(trail)) == (t, trail)
  {
    assert (t + "-")[..|t|] == t && t + "" == t;
  }

  lemma {:induction false} SignRead(s: string, sign: string)
    requires s != "" && IsDigit(s[0]) && IsSignText(sign)
    ensures Unsign(sign + s) == (s, sign == "-") && (sign + s)[0] != '('
  {
    if sign == "" {
      assert sign + s == s;
    } else {
      assert (sign + s)[1..] == s && (sign + s)[0] == sign[0];
    }
  }

  lemma {:induction false} ParenRead(s: string, paren: bool)
    requires s != "" && s[0] != '('
    ensures Unparen((if paren then "(" else "") + s + (if paren then ")" else "")) == (s, paren)
  {
    var u := "(" + s + ")";
    assert u[1..|u| - 1] == s && "" + s + "" == s;
  }

  lemma {:induction false} DressedIs(t: string, sign: string, trail: bool, paren: bool)
    ensures Dressed(t, sign, trail, paren)
         == (if paren then "(" else "") + (sign + (t + Behind(trail))) + (if paren then ")" else "")
  {
    assert (if paren then "(" else "") + sign + t + Behind(trail)
        == (if paren then "(" else "") + (sign + (t + Behind(trail)));
  }

  /** A dressed token is read as negative if anything about it says so. */
  lemma {:induction false} ReadsDressed(t: string, sign: string, trail: bool, paren: bool)
    requires IsToken(t) && IsSignText(sign)
    ensures ReadSign(Dressed(t, sign, trail, paren)) == Some((t, paren || sign == "-" || trail))
  {
    DressedIs(t, sign, trail, paren);
    TrailRead(t, trail);
    SignRead(t + Behind(trail), sign);
    ParenRead(sign + (t + Behind(trail)), paren);
  }

  lemma {:induction false} UnparenIs(s: string)
    ensures var (s1, paren) := Unparen(s); s == (if paren then "(" else "") + s1 + (if paren then ")" else "")
  {
    if s != "" && s[0] == '(' && s[|s| - 1] == ')' {
      assert s == "(" + s[1..|s| - 1] + ")";
    } else {
      assert "" + s + "" == s;
    }
  }

  lemma {:induction false} UnsignIs(s: string) returns (sign: string)
    ensures IsSignText(sign) && Unsign(s).1 == (sign == "-") && s == sign + Unsign(s).0
  {
    if s != "" && (s[0] == '-' || s[0] == '+') {
      sign := [s[0]];
      assert s == [s[0]] + s[1..];
    } else {
      sign := "";
      assert s == "" + s;
    }
  }

  lemma {:induction false} UntrailIs(s: string)
    ensures s == Untrail(s).0 + Behind(Untrail(s).1)
  {
    if s != "" && s[|s| - 1] == '-' {
      assert s == s[..|s| - 1] + "-";
    } else {
      assert s == s + "";
    }
  }

  /** And nothing but a dressed token is read. */
  lemma {:induction false} ReadsDressedOnly(s: string) returns (sign: string, trail: bool, paren: bool)
    requires ReadSign(s).Some?
    ensures IsSignText(sign) && IsToken(ReadSign(s).value.0) && s == Dressed(ReadSign(s).value.0, sign, trail, paren)
  {
    var (s1, n1) := Unparen(s);
    var (s2, n2) := Unsign(s1);
    var (t, n3) := Untrail(s2);
    UnparenIs(s);
    sign := UnsignIs(s1);
    UntrailIs(s2);
    trail, paren := n3, n1;
    DressedIs(t, sign, trail, paren);
  }

  /** A token in its dress between marks: the sign is negative if anything says so. */
  predicate Shows(bare: string, u: string, v: string, sign: string, trail: bool, paren: bool, t: string, neg: bool) {
    && bare == u + Dressed(t, sign, trail, paren) + v && IsMark(u) && IsMark(v)
    && IsToken(t) && IsSignText(sign) && neg == (paren || sign == "-" || trail)
  }

  lemma {:induction false} ReadsShown(
    bare: string, u: string, v: string, sign: string, trail: bool, paren: bool, t: string, neg: bool)
    requires Shows(bare, u, v, sign, trail, paren, t, neg)
    ensures ReadSign(TrimRight(TrimLeft(bare))) == Some((t, neg))
  {
    DressedKept(t, sign, trail, paren);
    MarksTrimmed(u, Dressed(t, sign, trail, paren), v);
    ReadsDressed(t, sign, trail, paren);
  }

  lemma {:induction false} DressedKept(t: string, sign: string, trail: bool, paren: bool)
    requires IsToken(t) && IsSignText(sign)
    ensures var s := Dressed(t, sign, trail, paren); s != "" && Kept(s[0]) && Kept(s[|s| - 1])
  {
  }

  lemma {:induction false} ReadsShownOnly(bare: string, t: string, neg: bool)
    returns (u: string, v: string, sign: string, trail: bool, paren: bool)
    requires ReadSign(TrimRight(TrimLeft(bare))) == Some((t, neg))
    ensures Shows(bare, u, v, sign, trail, paren, t, neg)
  {
    u, v := TrimmedParts(bare);
    sign, trail, paren := ReadsDressedOnly(TrimRight(TrimLeft(bare)));
    ReadsDressed(t, sign, trail, paren);
  }

  ghost predicate Reads(bare: string, t: string, neg: bool) {
    exists u, v, sign, trail, paren :: Shows(bare, u, v, sign, trail, paren, t, neg)
  }

  lemma {:induction false} ReadsIff(bare: string, t: string, neg: bool)
    ensures ReadSign(TrimRight(TrimLeft(bare))) == Some((t, neg)) <==> Reads(bare, t, neg)
  {
    if ReadSign(TrimRight(TrimLeft(bare))) == Some((t, neg)) {
      var u, v, sign, trail, paren := ReadsShownOnly(bare, t, neg);
    } else if Reads(bare, t, neg) {
      var u, v, sign, trail, paren :| Shows(bare, u, v, sign, trail, paren, t, neg);
      ReadsShown(bare, u, v, sign, trail, paren, t, neg);
      assert false;
    }
  }

  /** A cell is read exactly when, its white space dropped, it is a dressed token between
      marks; the token and the sign are those. */
  lemma {:induction false} NormalizesIff(cell: string, t: string, neg: bool)
    ensures Normalize(cell) == Some((t, neg)) <==> Reads(WithoutSpace(cell), t, neg)
  {
    ReadsIff(WithoutSpace(cell), t, neg);
  }

  // ---- Ordinary amounts ----

  lemma {:induction false} NumeralToken(x: Numeral)
    requires WellFormed(x)
    ensures IsToken(Text(x))
  {
    if x.Groups? || x.GroupsPoint? {
      GroupedShowDigits(x.n, x.sep);
    }
  }

  lemma {:induction false} NumeralParses(x: Numeral, neg: bool)
    requires WellFormed(x)
    ensures ParseIso(Signed(neg, Text(x))) == IsoAmount(x, neg)
    ensures ParseSwedish(Signed(neg, Text(x))) == SwedishAmount(x, neg)
  {
    NumeralToken(x);
    IsoReads(x, neg);
    SwedishReads(x, neg);
    SignedNormalize(neg, Text(x));
  }

  /** The ISO parser reads kronor, with and without öre after a point or a comma. */
  lemma {:induction false} IsoReadsAmounts(k: nat, c: nat, neg: bool)
    requires c < 100
    ensures ParseIso(Signed(neg, Show(k))) == Expected(k, 0, neg)
    ensures ParseIso(Signed(neg, Show(k) + "." + ShowTwo(c))) == Expected(k, c, neg)
    ensures ParseIso(Signed(neg, Show(k) + "," + ShowTwo(c))) == Expected(k, c, neg)
  {
    ShowValue(k);
    TwoDigits(c);
    NumeralParses(Whole(Show(k)), neg);
    NumeralParses(Point(Show(k), '.', ShowTwo(c)), neg);
    NumeralParses(Point(Show(k), ',', ShowTwo(c)), neg);
  }

  /** The Swedish parser reads an amount's own rendering back exactly when its kronor
      are within the limit, and refuses it otherwise. */
  lemma {:induction false} ReadsAmountString(a: int)
    requires Fits(a)
    ensures ParseSwedish(AmountString(a)) == if Abs(a) / 100 * 100 + 99 <= MAX_INT64 then Some(a) else None
  {
    var k, c := Abs(a) / 100, Abs(a) % 100;
    if a == MIN_INT64 {
      MinAmountRefused(a, k, c);
    } else {
      ReadsWhatPrints(a, k, c);
    }
  }

  lemma {:induction false} ReadsWhatPrints(a: int, k: nat, c: nat)
    requires Fits(a) && a != MIN_INT64 && c < 100 && Abs(a) == k * 100 + c
    ensures ParseSwedish(AmountString(a)) == if k * 100 + 99 <= MAX_INT64 then Some(a) else None
  {
    AmountStringIs(a, k, c);
    ShowValue(k);
    TwoDigits(c);
    NumeralParses(Point(Show(k), ',', ShowTwo(c)), a < 0);
    assert a == if a < 0 then -(k * 100 + c) else k * 100 + c;
  }

  /** So are the same amount dot-grouped with comma decimals, and whole kronor
      dot-grouped without decimals. */
  lemma {:induction false} ReadsGroupedAmounts(k: nat, c: nat, neg: bool)
    requires c < 100
    ensures ParseSwedish(Signed(neg, GroupedShow(k, '.') + "," + ShowTwo(c))) == Expected(k, c, neg)
    ensures ParseSwedish(Signed(neg, GroupedShow(k, '.'))) == Expected(k, 0, neg)
  {
    TwoDigits(c);
    ReadsGroupedDecimal(k, ShowTwo(c), neg);
    ReadsGroupedWhole(k, neg);
  }

  lemma {:induction false} ReadsGroupedDecimal(k: nat, f: string, neg: bool)
    requires AllDigits(f) && |f| == 2
    ensures ParseSwedish(Signed(neg, GroupedShow(k, '.') + "," + f)) == Expected(k, Cents(f), neg)
  {
    ShowValue(k);
    var x := if k < 1000 then Point(Show(k), ',', f) else GroupsPoint(k, '.', f);
    assert SwedishAmount(x, neg) == Expected(k, Cents(f), neg);
    assert Text(x) == GroupedShow(k, '.') + "," + f;
    NumeralParses(x, neg);
  }

  lemma {:induction false} ReadsGroupedWhole(k: nat, neg: bool)
    ensures ParseSwedish(Signed(neg, GroupedShow(k, '.'))) == Expected(k, 0, neg)
  {
    if 1000 <= k < 1_000_000 {
      ReadsThousands(k / 1000, k % 1000, neg);
    } else {
      ShowValue(k);
      var x := if k < 1000 then Whole(Show(k)) else Groups(k, '.');
      assert SwedishAmount(x, neg) == Expected(k, 0, neg);
      assert Text(x) == GroupedShow(k, '.');
      NumeralParses(x, neg);
    }
  }

  lemma {:induction false} ReadsThousands(m: nat, v: nat, neg: bool)
    requires 1 <= m < 1000 && v < 1000
    ensures ParseSwedish(Signed(neg, GroupedShow(m * 1000 + v, '.'))) == Expected(m * 1000 + v, 0, neg)
  {
    var w, f := Show(m), Padded(v, 3);
    ShowShort(m);
    ShowValue(m);
    PowerMonotone(3, 3);
    PaddedValue(v, 3);
    GroupedShowStep(m, v, '.');
    ReadsOneGroup(w, f, neg);
  }

  lemma {:induction false} ReadsOneGroup(w: string, f: string, neg: bool)
    requires IsFirstGroup(w) && IsLaterGroup(f)
    ensures ParseSwedish(Signed(neg, w + ['.'] + f)) == Expected(Value(w) * 1000 + Value(f), 0, neg)
  {
    var x := Point(w, '.', f);
    assert SwedishAmount(x, neg) == Expected(Value(w) * 1000 + Value(f), 0, neg);
    assert Text(x) == w + ['.'] + f;
    NumeralParses(x, neg);
  }
}
