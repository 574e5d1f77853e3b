/** Amount cells of bank statements: the ISO 20022 parser for camt.053 and the
    locale parser for Swedish CSV exports, both from a cell to öre. */
module BankAmounts {
  import opened Prelude
  import opened Decimal

  // ---- Cleaning a cell ----

  /** unicode.IsSpace */
  predicate IsSpace(c: char) {
    || '\t' <= c <= '\r' || c == ' ' || c == '\U{85}' || c == '\U{a0}' || c == '\U{1680}'
    || '\U{2000}' <= c <= '\U{200a}' || c == '\U{2028}' || c == '\U{2029}' || c == '\U{202f}' || c == '\U{205f}'
         || c == '\U{3000}'
  }

  predicate IsAmountChar(c: char) {
    IsDigit(c) || c == '.' || c == ','
  }

  predicate IsSign(c: char) {
    c == '-' || c == '+' || c == '(' || c == ')'
  }

  function WithoutSpace(s: string): string {
    if s == "" then ""
    else if IsSpace(s[0]) then WithoutSpace(s[1..])
    else [s[0]] + WithoutSpace(s[1..])
  }

  predicate Kept(c: char) {
    IsAmountChar(c) || IsSign(c)
  }

  function TrimLeft(s: string): string {
    if s != "" && !Kept(s[0]) then TrimLeft(s[1..]) else s
  }

  function TrimRight(s: string): string {
    if s != "" && !Kept(s[|s| - 1]) then TrimRight(s[..|s| - 1]) else s
  }

  predicate AllAmount(s: string) {
    forall i :: 0 <= i < |s| ==> IsAmountChar(s[i])
  }

  /** Digits and separators only, starting and ending with a digit. */
  predicate IsToken(s: string) {
    s != "" && AllAmount(s) && IsDigit(s[0]) && IsDigit(s[|s| - 1])
  }

  function Unparen(s: string): (string, bool) {
    if s != "" && s[0] == '(' && s[|s| - 1] == ')' then (s[1..|s| - 1], true) else (s, false)
  }

  function Unsign(s: string): (string, bool) {
    if s == "" then (s, false)
    else if s[0] == '-' then (s[1..], true)
    else if s[0] == '+' then (s[1..], false)
    else (s, false)
  }

  function Untrail(s: string): (string, bool) {
    if s != "" && s[|s| - 1] == '-' then (s[..|s| - 1], true) else (s, false)
  }

  /** The bare token and whether it is negative. */
  function Normalize(cell: string): Option<(string, bool)> {
    ReadSign(TrimRight(TrimLeft(WithoutSpace(cell))))
  }

  function ReadSign(s: string): Option<(string, bool)> {
    var (s1, n1) := Unparen(s);
    var (s2, n2) := Unsign(s1);
    var (s3, n3) := Untrail(s2);
    if IsToken(s3) then Some((s3, n1 || n2 || n3)) else None
  }

  /** normalizeAmount: drop the spaces, trim what is neither amount nor sign, read the
      sign, and refuse anything that is then not a bare token. */
  method NormalizeAmount(cell: string) returns (token: string, negative: bool, ok: bool)
    ensures ok <==> Normalize(cell).Some?
    ensures ok ==> Normalize(cell) == Some((token, negative))
  {
    var s := DropSpaces(cell);
    s := TrimRight(TrimLeft(s));
    negative := false;
    if s != "" && s[0] == '(' && s[|s| - 1] == ')' {
      negative, s := true, s[1..|s| - 1];
    }
    if s != "" && s[0] == '-' {
      negative, s := true, s[1..];
    } else if s != "" && s[0] == '+' {
      s := s[1..];
    }
    if s != "" && s[|s| - 1] == '-' {
      negative, s := true, s[..|s| - 1];
    }
    token := s;
    ok := IsBareToken(s);
  }

  method DropSpaces(cell: string) returns (s: string)
    ensures s == WithoutSpace(cell)
  {
    s := "";
    for i := 0 to |cell|
      invariant WithoutSpace(cell) == s + WithoutSpace(cell[i..])
    {
      var rest := cell[i..];
      assert rest[0] == cell[i] && rest[1..] == cell[i + 1..];
      if !IsSpace(cell[i]) {
        assert s + ([cell[i]] + WithoutSpace(rest[1..])) == (s + [cell[i]]) + WithoutSpace(rest[1..]);
        s := s + [cell[i]];
      }
    }
    assert cell[|cell|..] == "";
  }

  method IsBareToken(s: string) returns (ok: bool)
    ensures ok == IsToken(s)
  {
    if s == "" {
      return false;
    }
    for i := 0 to |s|
      invariant AllAmount(s[..i])
    {
      if !IsAmountChar(s[i]) {
        return false;
      }
    }
    return IsDigit(s[0]) && IsDigit(s[|s| - 1]);
  }

  // ---- Separators ----

  function Count(s: string, c: char): nat {
    if s == "" then 0 else (if s[0] == c then 1 else 0) + Count(s[1..], c)
  }

  /** strings.Split on one character: always at least one part. */
  function Split(s: string, c: char): (parts: seq<string>)
    ensures |parts| == Count(s, c) + 1
  {
    if s == "" then [""]
    else
      var rest := Split(s[1..], c);
      if s[0] == c then [""] + rest else OntoFirst(s[0], rest)
  }

  /** The parts with x put before the first of them. */
  function OntoFirst(x: char, parts: seq<string>): (r: seq<string>)
    requires parts != []
    ensures |r| == |parts|
  {
    [[x] + parts[0]] + parts[1..]
  }

  /** Position of the last c, or -1. */
  function LastIndex(s: string, c: char): int {
    if s == "" then -1
    else if s[|s| - 1] == c then |s| - 1
    else LastIndex(s[..|s| - 1], c)
  }

  function Without(s: string, c: char): string {
    if s == "" then ""
    else if s[0] == c then Without(s[1..], c)
    else [s[0]] + Without(s[1..], c)
  }

  // ---- Thousands grouping ----

  predicate IsFirstGroup(p: string) {
    1 <= |p| <= 3 && AllDigits(p) && p[0] != '0'
  }

  predicate IsLaterGroup(p: string) {
    |p| == 3 && AllDigits(p)
  }

  predicate GroupParts(parts: seq<string>) {
    |parts| >= 1 && IsFirstGroup(parts[0]) && forall i :: 1 <= i < |parts| ==> IsLaterGroup(parts[i])
  }

  predicate Grouped(s: string, sep: char) {
    |Split(s, sep)| >= 2 && GroupParts(Split(s, sep))
  }

  method IsGrouped(s: string, sep: char) returns (ok: bool)
    ensures ok == Grouped(s, sep)
  {
    var parts := Split(s, sep);
    if |parts| < 2 {
      return false;
    }
    var first := parts[0];
    if |first| == 0 || |first| > 3 || !AllDigits(first) || first[0] == '0' {
      return false;
    }
    for i := 1 to |parts|
      invariant forall k :: 1 <= k < i ==> IsLaterGroup(parts[k])
    {
      if |parts[i]| != 3 || !AllDigits(parts[i]) {
        return false;
      }
    }
    return true;
  }

  // ---- öre ----

  const WHOLE_LIMIT: int := (MAX_INT64 - 99) / 100

  function Cents(frac: string): int
    requires AllDigits(frac)
  {
    DigitValue((frac + "00")[0]) * 10 + DigitValue((frac + "00")[1])
  }

  /** Signed öre of a whole part and a fraction cut to two digits, if they are digits
      and the kronor are within the limit. */
  function Ore(whole: string, frac: string, neg: bool): Option<int> {
    if whole == "" || !AllDigits(whole) || !AllDigits(frac) || Value(whole) > WHOLE_LIMIT then None
    else
      var ore := Value(whole) * 100 + Cents(frac);
      Some(if neg then -ore else ore)
  }

  /** Digits are needed before the separator, digits or nothing after it, and room for
      any öre. */
  lemma {:induction false} OreAccepts(whole: string, frac: string, neg: bool)
    ensures Ore(whole, frac, neg).Some? <==>
              |whole| > 0 && AllDigits(whole) && AllDigits(frac) && Value(whole) * 100 + 99 <= MAX_INT64
  {
  }

  /** oreFromParts: the accumulation is guarded twice. No step of it wraps, and the
      early guard refuses nothing that the final one would accept. */
  method OreFromParts(whole: string, frac: string, neg: bool) returns (r: Option<int>)
    ensures r == Ore(whole, frac, neg)
    ensures r.Some? ==> Fits(r.value)
  {
    if whole == "" || !AllDigits(whole) || !AllDigits(frac) {
      return None;
    }
    var ore := 0;
    for i := 0 to |whole|
      invariant AllDigits(whole[..i]) && ore == Value(whole[..i]) && 0 <= ore <= MAX_INT64
    {
      assert whole[..i + 1][..i] == whole[..i];
      ValueGrows(whole, i);
      if ore > (MAX_INT64 - 9) / 10 {
        return None;
      }
      ore := Wrap(Wrap(ore * 10) + DigitValue(whole[i]));
    }
    assert whole[..|whole|] == whole;
    if ore > (MAX_INT64 - 99) / 100 {
      return None;
    }
    var f := (frac + "00")[..2];
    ore := Wrap(Wrap(Wrap(ore * 100) + DigitValue(f[0]) * 10) + DigitValue(f[1]));
    if neg {
      ore := Wrap(-ore);
    }
    return Some(ore);
  }

  lemma {:induction false} ValueGrows(s: string, k: nat)
    requires AllDigits(s) && k <= |s|
    ensures Value(s[..k]) <= Value(s)
    decreases |s| - k
  {
    if k < |s| {
      ValueGrows(s, k + 1);
      assert s[..k + 1][..k] == s[..k];
    } else {
      assert s[..k] == s;
    }
  }

  // ---- The two parsers ----

  function IsoToken(tok: string, neg: bool): Option<int> {
    if Count(tok, '.') + Count(tok, ',') > 1 then None
    else if Count(tok, ',') > 0 && Grouped(tok, ',') then None
    else
      var (whole, frac) := CutAt(tok, ".,");
      Ore(whole, frac, neg)
  }

  function SwedishToken(tok: string, neg: bool): Option<int> {
    var dots, commas := Count(tok, '.'), Count(tok, ',');
    if dots == 0 && commas == 0 then Ore(tok, "", neg)
    else if dots > 0 && commas > 0 then
      var dotLast := LastIndex(tok, '.') > LastIndex(tok, ',');
      var dec, grp := if dotLast then '.' else ',', if dotLast then ',' else '.';
      if Count(tok, dec) != 1 then None
      else
        var (whole, frac) := CutAt(tok, [dec]);
        if !Grouped(whole, grp) then None else Ore(Without(whole, grp), frac, neg)
    else if commas == 1 then
      if Grouped(tok, ',') then None
      else
        var (whole, frac) := CutAt(tok, ",");
        Ore(whole, frac, neg)
    else if dots == 1 then
      if Grouped(tok, '.') then Ore(Without(tok, '.'), "", neg)
      else
        var (whole, frac) := CutAt(tok, ".");
        Ore(whole, frac, neg)
    else
      var sep := if commas > 1 then ',' else '.';
      if !Grouped(tok, sep) then None else Ore(Without(tok, sep), "", neg)
  }

  function ParseIso(cell: string): Option<int> {
    var n := Normalize(cell);
    if n.None? then None else IsoToken(n.value.0, n.value.1)
  }

  function ParseSwedish(cell: string): Option<int> {
    var n := Normalize(cell);
    if n.None? then None else SwedishToken(n.value.0, n.value.1)
  }

  // ---- isGrouped recognises exactly the grouped renderings ----

  /** n with its thousands grouped by sep. */
  function GroupedShow(n: nat, sep: char): string {
    if n < 1000 then Show(n) else GroupedShow(n / 1000, sep) + [sep] + Padded(n % 1000, 3)
  }

  lemma {:induction false} OntoFirstAppend(x: char, xs: seq<string>, ys: seq<string>)
    requires xs != []
    ensures OntoFirst(x, xs + ys) == OntoFirst(x, xs) + ys
  {
  }

  lemma {:induction false} SplitStep(x: char, s: string, c: char)
    ensures Split([x] + s, c) == if x == c then [""] + Split(s, c) else OntoFirst(x, Split(s, c))
  {
    assert ([x] + s)[1..] == s;
  }

  lemma {:induction false} SplitAt(a: string, b: string, c: char)
    ensures Split(a + [c] + b, c) == Split(a, c) + Split(b, c)
  {
    if a == "" {
      assert a + [c] + b == [c] + b;
      SplitStep(c, b, c);
    } else {
      SplitAt(a[1..], b, c);
      AroundCons(a, b, c);
      SplitCons(a[0], a[1..] + [c] + b, c, Split(a[1..], c), Split(b, c));
      SplitStep(a[0], a[1..], c);
      assert [a[0]] + a[1..] == a;
    }
  }

  lemma {:induction false} AroundCons(a: string, b: string, c: char)
    requires a != ""
    ensures a + [c] + b == [a[0]] + (a[1..] + [c] + b)
  {
  }

  lemma {:induction false} SplitCons(x: char, s: string, c: char, left: seq<string>, right: seq<string>)
    requires left != [] && Split(s, c) == left + right
    ensures Split([x] + s, c) == (if x == c then [""] + left else OntoFirst(x, left)) + right
  {
    SplitStep(x, s, c);
    if x == c {
      assert [""] + (left + right) == ([""] + left) + right;
    } else {
      OntoFirstAppend(x, left, right);
    }
  }

  lemma {:induction false} SplitNone(s: string, c: char)
    requires AllDigits(s) && !IsDigit(c)
    ensures Split(s, c) == [s]
  {
    if s != "" {
      SplitNone(s[1..], c);
      assert [s[0]] + s[1..] == s;
    }
  }

  lemma {:induction false} ShowShort(n: nat)
    requires 1 <= n < 1000
    ensures IsFirstGroup(Show(n))
  {
    ShowValue(n);
    ValueBound(Show(n));
    if |Show(n)| > 3 {
      PowerMonotone(3, |Show(n)| - 1);
    }
  }

  lemma {:induction false} PowerMonotone(a: nat, b: nat)
    requires a <= b
    ensures PowerOfTen(a) <= PowerOfTen(b) && PowerOfTen(3) == 1000
    decreases b
  {
    assert PowerOfTen(3) == 10 * PowerOfTen(2) == 100 * PowerOfTen(1) == 1000;
    if a < b {
      PowerMonotone(a, b - 1);
    }
  }

  lemma {:induction false} GroupedShowParts(n: nat, sep: char)
    requires n >= 1 && !IsDigit(sep)
    ensures GroupParts(Split(GroupedShow(n, sep), sep))
    ensures n >= 1000 ==> |Split(GroupedShow(n, sep), sep)| >= 2
  {
    if n < 1000 {
      ShowShort(n);
      SplitNone(Show(n), sep);
    } else {
      PowerMonotone(0, 0);
      GroupedShowParts(n / 1000, sep);
      PaddedValue(n % 1000, 3);
      SplitNone(Padded(n % 1000, 3), sep);
      SplitAt(GroupedShow(n / 1000, sep), Padded(n % 1000, 3), sep);
    }
  }

  /** The parts put back together. */
  function Joined(parts: seq<string>, sep: char): string
    requires |parts| >= 1
  {
    if |parts| == 1 then parts[0] else Joined(parts[..|parts| - 1], sep) + [sep] + parts[|parts| - 1]
  }

  function PartsValue(parts: seq<string>): nat
    requires GroupParts(parts)
  {
    if |parts| == 1 then Value(parts[0]) else PartsValue(parts[..|parts| - 1]) * 1000 + Value(parts[|parts| - 1])
  }

  lemma {:induction false} JoinedCons(p: string, parts: seq<string>, sep: char)
    requires |parts| >= 1
    ensures Joined([p] + parts, sep) == p + [sep] + Joined(parts, sep)
    decreases |parts|
  {
    var all := [p] + parts;
    if |parts| == 1 {
      assert all[..1] == [p];
    } else {
      var n := |parts| - 1;
      JoinedCons(p, parts[..n], sep);
      assert all[..|all| - 1] == [p] + parts[..n];
      assert p + [sep] + Joined(parts[..n], sep) + [sep] + parts[n]
        == p + [sep] + (Joined(parts[..n], sep) + [sep] + parts[n]);
    }
  }

  lemma {:induction false} SplitJoined(s: string, c: char)
    ensures Joined(Split(s, c), c) == s
  {
    if s != "" {
      var rest := Split(s[1..], c);
      SplitJoined(s[1..], c);
      if s[0] == c {
        JoinedCons("", rest, c);
        assert "" + [c] + s[1..] == s;
      } else {
        JoinedFirst(s[0], rest, c);
        assert [s[0]] + s[1..] == s;
      }
    }
  }

  lemma {:induction false} JoinedFirst(x: char, parts: seq<string>, c: char)
    requires |parts| >= 1
    ensures Joined(OntoFirst(x, parts), c) == [x] + Joined(parts, c)
    decreases |parts|
  {
    var all := OntoFirst(x, parts);
    if |parts| > 1 {
      var n := |parts| - 1;
      JoinedFirst(x, parts[..n], c);
      assert all[..n] == OntoFirst(x, parts[..n]);
      assert [x] + Joined(parts[..n], c) + [c] + parts[n] == [x] + (Joined(parts[..n], c) + [c] + parts[n]);
    }
  }

  /** A digit string without a leading zero is how its value prints. */
  lemma {:induction false} ShowOfValue(s: string)
    requires s != "" && AllDigits(s) && s[0] != '0'
    ensures Show(Value(s)) == s && Value(s) >= 1
  {
    var n := |s| - 1;
    assert s == s[..n] + [s[n]];
    if n == 0 {
      assert s[..0] == "";
    } else {
      ShowOfValue(s[..n]);
    }
  }

  lemma {:induction false} FirstGroupShow(p: string)
    requires IsFirstGroup(p)
    ensures 1 <= Value(p) < 1000 && Show(Value(p)) == p
  {
    ShowOfValue(p);
    ValueBound(p);
    PowerMonotone(|p|, 3);
  }

  lemma {:induction false} LaterGroupShow(p: string)
    requires IsLaterGroup(p)
    ensures Value(p) < 1000 && Padded(Value(p), 3) == p
  {
    ValueBound(p);
    PowerMonotone(3, 3);
    PaddedOfValue(p);
  }

  lemma {:induction false} GroupedShowStep(m: nat, v: nat, sep: char)
    requires m >= 1 && v < 1000
    ensures GroupedShow(m * 1000 + v, sep) == GroupedShow(m, sep) + [sep] + Padded(v, 3)
  {
    assert (m * 1000 + v) / 1000 == m && (m * 1000 + v) % 1000 == v;
  }

  lemma {:induction false} PartsShow(parts: seq<string>, sep: char)
    requires GroupParts(parts)
    ensures PartsValue(parts) >= 1 && GroupedShow(PartsValue(parts), sep) == Joined(parts, sep)
    ensures |parts| >= 2 ==> PartsValue(parts) >= 1000
    decreases |parts|
  {
    if |parts| == 1 {
      FirstGroupShow(parts[0]);
    } else {
      var n := |parts| - 1;
      PartsShow(parts[..n], sep);
      LaterGroupShow(parts[n]);
      GroupedShowStep(PartsValue(parts[..n]), Value(parts[n]), sep);
    }
  }

  /** isGrouped holds exactly for the grouped renderings of integers from 1000 on. */
  lemma {:induction false} GroupedIff(s: string, sep: char)
    requires !IsDigit(sep)
    ensures Grouped(s, sep) <==> exists n: nat :: n >= 1000 && s == GroupedShow(n, sep)
  {
    if Grouped(s, sep) {
      PartsShow(Split(s, sep), sep);
      SplitJoined(s, sep);
    }
    if n: nat :| n >= 1000 && s == GroupedShow(n, sep) {
      GroupedShowParts(n, sep);
    }
  }

  // ---- Counting and cutting ----

  lemma {:induction false} CountAppend(a: string, b: string, c: char)
    ensures Count(a + b, c) == Count(a, c) + Count(b, c)
  {
    if a == "" {
      assert a + b == b;
    } else {
      CountAppend(a[1..], b, c);
      assert (a + b)[1..] == a[1..] + b;
    }
  }

  lemma {:induction false} CountNone(s: string, c: char)
    ensures (forall i :: 0 <= i < |s| ==> s[i] != c) <==> Count(s, c) == 0
  {
    if s != "" {
      CountNone(s[1..], c);
      assert forall i :: 1 <= i < |s| ==> s[i] == s[1..][i - 1];
    }
  }

  lemma {:induction false} WithoutAppend(a: string, b: string, c: char)
    ensures Without(a + b, c) == Without(a, c) + Without(b, c)
  {
    if a == "" {
      assert a + b == b;
    } else {
      WithoutAppend(a[1..], b, c);
      assert (a + b)[0] == a[0] && (a + b)[1..] == a[1..] + b;
      var x, y := Without(a[1..], c), Without(b, c);
      assert [a[0]] + (x + y) == ([a[0]] + x) + y;
    }
  }

  lemma {:induction false} WithoutNone(s: string, c: char)
    requires AllDigits(s) && !IsDigit(c)
    ensures Without(s, c) == s
  {
    if s != "" {
      WithoutNone(s[1..], c);
      assert [s[0]] + s[1..] == s;
    }
  }

  /** Dropping the separators of a grouped rendering leaves the digits of n. */
  lemma {:induction false} GroupedShowDigits(n: nat, sep: char)
    requires !IsDigit(sep)
    ensures var d := Without(GroupedShow(n, sep), sep); d != "" && AllDigits(d) && Value(d) == n
    ensures forall i :: 0 <= i < |GroupedShow(n, sep)| ==>
              GroupedShow(n, sep)[i] == sep || IsDigit(GroupedShow(n, sep)[i])
    ensures GroupedShow(n, sep) != "" && IsDigit(GroupedShow(n, sep)[0])
            && IsDigit(GroupedShow(n, sep)[|GroupedShow(n, sep)| - 1])
  {
    if n < 1000 {
      ShowValue(n);
      WithoutNone(Show(n), sep);
    } else {
      GroupedShowDigits(n / 1000, sep);
      PowerMonotone(3, 3);
      PaddedValue(n % 1000, 3);
      JoinDigits(GroupedShow(n / 1000, sep), Padded(n % 1000, 3), sep);
    }
  }

  lemma {:induction false} JoinDigits(head: string, last: string, sep: char)
    requires !IsDigit(sep) && AllDigits(last) && AllDigits(Without(head, sep))
    ensures Without(head + [sep] + last, sep) == Without(head, sep) + last
    ensures Value(Without(head, sep) + last) == Value(Without(head, sep)) * PowerOfTen(|last|) + Value(last)
  {
    WithoutNone(last, sep);
    WithoutAppend(head, [sep] + last, sep);
    assert head + [sep] + last == head + ([sep] + last);
    assert ([sep] + last)[1..] == last;
    ValueAppend(Without(head, sep), last);
  }

  // ---- Signs and spaces ----

  lemma {:induction false} KeptWhole(s: string)
    requires forall i :: 0 <= i < |s| ==> Kept(s[i])
    ensures WithoutSpace(s) == s && TrimLeft(s) == s && TrimRight(s) == s
  {
    if s != "" {
      KeptWhole(s[1..]);
      assert [s[0]] + s[1..] == s;
    }
  }

  lemma {:induction false} KeptNormalize(s: string)
    requires forall i :: 0 <= i < |s| ==> Kept(s[i])
    ensures Normalize(s) == ReadSign(s)
  {
    KeptWhole(s);
  }

  predicate NegativeForm(cell: string, t: string) {
    cell == "-" + t || cell == t + "-" || cell == "(" + t + ")"
  }

  lemma {:induction false} PlainNormalizes(t: string)
    requires IsToken(t)
    ensures Normalize(t) == Some((t, false))
  {
    KeptNormalize(t);
  }

  lemma {:induction false} MinusNormalizes(t: string)
    requires IsToken(t)
    ensures Normalize("-" + t) == Some((t, true))
  {
    KeptNormalize("-" + t);
    assert ("-" + t)[1..] == t;
  }

  lemma {:induction false} TrailNormalizes(t: string)
    requires IsToken(t)
    ensures Normalize(t + "-") == Some((t, true))
  {
    KeptNormalize(t + "-");
    assert (t + "-")[..|t|] == t;
  }

  lemma {:induction false} ParenNormalizes(t: string)
    requires IsToken(t)
    ensures Normalize("(" + t + ")") == Some((t, true))
  {
    var s := "(" + t + ")";
    KeptNormalize(s);
    assert s[1..|s| - 1] == t;
    assert Unparen(s) == (t, true);
  }

  function Negated(r: Option<int>): Option<int> {
    if r.None? then None else Some(-r.value)
  }

  lemma {:induction false} TokensNegate(t: string)
    ensures SwedishToken(t, true) == Negated(SwedishToken(t, false))
    ensures IsoToken(t, true) == Negated(IsoToken(t, false))
  {
    forall w: string, f: string ensures Ore(w, f, true) == Negated(Ore(w, f, false)) {}
  }

  /** A minus before or after, or parentheses, negate the amount of a bare token, in
      both parsers. */
  lemma {:induction false} SignsNegate(t: string, cell: string)
    requires IsToken(t) && NegativeForm(cell, t)
    ensures ParseSwedish(cell) == Negated(ParseSwedish(t))
    ensures ParseIso(cell) == Negated(ParseIso(t))
  {
    PlainNormalizes(t);
    MinusNormalizes(t);
    TrailNormalizes(t);
    ParenNormalizes(t);
    TokensNegate(t);
  }

  lemma {:induction false} SpaceDropped(a: string, c: char, b: string)
    requires IsSpace(c)
    ensures WithoutSpace(a + [c] + b) == WithoutSpace(a + b)
  {
    var u, v := a + [c] + b, a + b;
    if a == "" {
      assert u[1..] == b && v == b;
    } else {
      SpaceDropped(a[1..], c, b);
      assert u[1..] == a[1..] + [c] + b && v[1..] == a[1..] + b;
    }
  }

  /** White space anywhere in a cell changes nothing. */
  lemma {:induction false} SpacesIgnored(a: string, c: char, b: string)
    requires IsSpace(c)
    ensures ParseSwedish(a + [c] + b) == ParseSwedish(a + b)
    ensures ParseIso(a + [c] + b) == ParseIso(a + b)
  {
    SpaceDropped(a, c, b);
  }

  // ---- Printing and parsing ----

  /** Amount.String, in int64. */
  function AmountString(a: int): string {
    var sign := if a < 0 then "-" else "";
    var v := if a < 0 then Wrap(-a) else a;
    sign + (ShowInt(TruncDiv(v, 100)) + "," + ShowTwo(TruncMod(v, 100)))
  }

  function Signed(neg: bool, s: string): string {
    (if neg then "-" else "") + s
  }

  lemma {:induction false} SignedNormalize(neg: bool, t: string)
    requires IsToken(t)
    ensures Normalize(Signed(neg, t)) == Some((t, neg))
  {
    if neg {
      MinusNormalizes(t);
    } else {
      PlainNormalizes(t);
      assert "" + t == t;
    }
  }

  lemma {:induction false} TwoDigits(c: nat)
    requires c < 100
    ensures |ShowTwo(c)| == 2 && AllDigits(ShowTwo(c)) && Cents(ShowTwo(c)) == c && ShowTwo(c) == Padded(c, 2)
  {
    if c < 10 {
      assert ShowTwo(c) == "0" + [DigitOf(c)];
    } else {
      assert Show(c / 10) == [DigitOf(c / 10)];
      assert ShowTwo(c) == [DigitOf(c / 10)] + [DigitOf(c % 10)];
    }
    assert Padded(c, 2) == Padded(c / 10, 1) + [DigitOf(c % 10)];
    assert Padded(c / 10, 1) == "" + [DigitOf(c / 10)];
  }

  /** What parsing k kronor and c öre should give. */
  function Expected(k: nat, c: nat, neg: bool): Option<int> {
    if k * 100 + 99 > MAX_INT64 then None else Some(if neg then -(k * 100 + c) else k * 100 + c)
  }

  lemma {:induction false} LastIndexSkips(a: string, b: string, c: char)
    requires Count(b, c) == 0
    ensures LastIndex(a + b, c) == LastIndex(a, c) < |a|
  {
    CountNone(b, c);
    if b == "" {
      assert a + b == a;
      LastIndexBound(a, c);
    } else {
      var n := |b| - 1;
      CountNone(b[..n], c);
      LastIndexSkips(a, b[..n], c);
      assert (a + b)[..|a + b| - 1] == a + b[..n];
    }
  }

  lemma {:induction false} LastIndexBound(s: string, c: char)
    ensures LastIndex(s, c) < |s|
  {
    if s != "" {
      LastIndexBound(s[..|s| - 1], c);
    }
  }

  lemma {:induction false} NoneIn(s: string, c: char)
    requires AllDigits(s) && !IsDigit(c)
    ensures Count(s, c) == 0
  {
    CountNone(s, c);
  }

  lemma {:induction false} CountOf(a: string, c: char, b: string, x: char)
    ensures Count(a + [c] + b, x) == Count(a, x) + (if c == x then 1 else 0) + Count(b, x)
  {
    CountAppend(a + [c], b, x);
    CountAppend(a, [c], x);
    assert [c][1..] == "";
  }

  lemma {:induction false} OreIs(w: string, f: string, k: nat, c: nat, neg: bool)
    requires w != "" && AllDigits(w) && AllDigits(f) && Value(w) == k && Cents(f) == c
    ensures Ore(w, f, neg) == Expected(k, c, neg)
  {
  }

  lemma {:induction false} AmountStringIs(a: int, k: nat, c: nat)
    requires Fits(a) && a != MIN_INT64 && c < 100 && Abs(a) == k * 100 + c
    ensures AmountString(a) == Signed(a < 0, Show(k) + "," + ShowTwo(c))
  {
    var v: int := Abs(a);
    assert (if a < 0 then Wrap(-a) else a) == v;
    assert TruncDiv(v, 100) == k && TruncMod(v, 100) == c;
  }

  lemma {:induction false} TwoMinusesRefused(x: string, y: string)
    requires x != "" && y != "" && AllDigits(x) && AllDigits(y)
    ensures Normalize("-" + (("-" + x) + "," + ("-" + y))) == None
  {
    var s := "-" + (("-" + x) + "," + ("-" + y));
    assert forall i :: 0 <= i < |s| ==> Kept(s[i]);
    KeptNormalize(s);
    var t := s[1..];
    assert t[0] == '-' && t[|t| - 1] == y[|y| - 1];
    assert Untrail(t) == (t, false);
  }

  /** MinInt64 prints with two signs. */
  lemma {:induction false} MinAmountRefused(a: int, k: nat, c: nat)
    requires a == MIN_INT64 && a == -(k * 100 + c) && c < 100
    ensures ParseSwedish(AmountString(a)) == None
  {
    ShowValue(k);
    ShowValue(c);
    MinPrints(a, k, c);
    TwoMinusesRefused(Show(k), Show(c));
  }

  lemma {:induction false} MinPrints(a: int, k: int, c: int)
    requires a == MIN_INT64 && a == -(k * 100 + c) && k >= 0 && 0 <= c < 100
    ensures AmountString(a) == "-" + (("-" + Show(k)) + "," + ("-" + Show(c)))
  {
    MinParts(a, k, c);
    SignedShow(k);
    SignedShow(c);
  }

  lemma {:induction false} MinParts(a: int, k: int, c: int)
    requires a == MIN_INT64 && a == -(k * 100 + c) && k >= 0 && 0 <= c < 100
    ensures Wrap(-a) == a < 0 && k > 0 && c > 0 && TruncDiv(a, 100) == -k && TruncMod(a, 100) == -c
  {
  }

  lemma {:induction false} SignedShow(n: int)
    requires n > 0
    ensures ShowInt(-n) == "-" + Show(n) && ShowTwo(-n) == "-" + Show(n)
  {
  }

  // ---- Where the two parsers differ ----

  /** A single-dot grouped integer, such as 12.500. */
  predicate SingleDotGroup(t: string) {
    Count(t, '.') == 1 && Count(t, ',') == 0 && Grouped(t, '.')
  }

  lemma {:induction false} CutSame(t: string, other: char, c: char)
    requires Count(t, other) == 0 && c != other
    ensures CutAt(t, [c]) == CutAt(t, [other, c]) == CutAt(t, [c, other])
  {
    if t != "" {
      CutSame(t[1..], other, c);
    }
  }

  lemma {:induction false} GroupOfTwo(t: string) returns (w: string, f: string)
    requires SingleDotGroup(t)
    ensures t == w + ['.'] + f && IsFirstGroup(w) && IsLaterGroup(f)
    ensures CutAt(t, ".,") == (w, f) && Without(t, '.') == w + f
  {
    var parts := Split(t, '.');
    w, f := parts[0], parts[1];
    SplitJoined(t, '.');
    assert parts[..1] == [w];
    CutAfter(w, '.', f, ".,");
    WithoutAppend(w + ['.'], f, '.');
    WithoutAppend(w, ['.'], '.');
    WithoutNone(w, '.');
    WithoutNone(f, '.');
    assert ['.'][1..] == "";
    assert Without(['.'], '.') == "";
    assert w + "" + f == w + f;
  }

  /** Whenever both parsers accept a cell they agree, except on a single-dot grouped
      integer, where the locale reads thousands and they always differ. */
  lemma {:induction false} ParsersAgree(cell: string)
    requires ParseIso(cell).Some? && ParseSwedish(cell).Some?
    ensures Normalize(cell).Some?
    ensures ParseIso(cell) == ParseSwedish(cell) <==> !SingleDotGroup(Normalize(cell).value.0)
  {
    var (t, neg) := Normalize(cell).value;
    if Count(t, '.') == 0 && Count(t, ',') == 0 {
      CountNone(t, '.');
      CountNone(t, ',');
      CutNowhere(t, ".,");
    } else if Count(t, ',') == 1 {
      CutSame(t, '.', ',');
      assert ",." == [',', '.'] && ".," == ['.', ','];
    } else if SingleDotGroup(t) {
      var w, f := GroupOfTwo(t);
      GroupsDiffer(w, f, neg);
    } else {
      CutSame(t, ',', '.');
      assert ".," == ['.', ','];
    }
  }

  lemma {:induction false} GroupsDiffer(w: string, f: string, neg: bool)
    requires IsFirstGroup(w) && IsLaterGroup(f)
    ensures Ore(w + f, "", neg).Some? && Ore(w, f, neg).Some? ==> Ore(w + f, "", neg) != Ore(w, f, neg)
  {
    FirstGroupShow(w);
    ValueAppend(w, f);
    PowerMonotone(3, 3);
    assert Cents("") == 0;
    CentsBound(f);
    OreIs(w, f, Value(w), Cents(f), neg);
    OreIs(w + f, "", Value(w) * 1000 + Value(f), 0, neg);
    ThousandsDiffer(Value(w), Value(f), Cents(f), neg);
  }

  lemma {:induction false} ThousandsDiffer(k: nat, x: nat, c: nat, neg: bool)
    requires k >= 1 && c < 100
    ensures Expected(k * 1000 + x, 0, neg).Some? && Expected(k, c, neg).Some? ==>
              Expected(k * 1000 + x, 0, neg) != Expected(k, c, neg)
  {
    assert (k * 1000 + x) * 100 > k * 100 + c;
  }

  lemma {:induction false} CentsBound(f: string)
    requires AllDigits(f)
    ensures 0 <= Cents(f) < 100
  {
  }
}
