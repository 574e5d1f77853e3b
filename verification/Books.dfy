/** A company's books and the one way into them: postVerification. */
module Books {
  import opened Prelude
  import opened Ledger
  import Reports

  datatype FiscalYear = FiscalYear(starts: int, ends: int, closed: bool)

  /** The chart (number to name), the posted vouchers in posting order, the date
      through which the books are locked, and the fiscal years. */
  datatype Book = Book(
    accounts: map<string, string>, vouchers: seq<Voucher>, lock: Option<int>, years: map<nat, FiscalYear>)

  datatype Refusal = Invalid(fault: Fault) | PeriodClosed | UnknownAccount(number: string)

  /** The highest number used in a series, or 0. */
  function LastNumber(vs: seq<Voucher>, series: string): int {
    if vs == [] then 0
    else
      var rest := LastNumber(vs[..|vs| - 1], series);
      var v := vs[|vs| - 1];
      if v.series == series && v.number > rest then v.number else rest
  }

  function FirstUnknown(lines: seq<Line>, known: set<string>): Option<string> {
    if lines == [] then None
    else if lines[0].account !in known then Some(lines[0].account)
    else FirstUnknown(lines[1..], known)
  }

  predicate Locked(lock: Option<int>, date: int) {
    lock.Some? && date <= lock.value
  }

  /** Posting: what is appended, or why it is refused. */
  function Post(b: Book, series: string, date: int, text: string, lines: seq<Line>): Result<Book, Refusal> {
    if Verdict(lines).Some? then Err(Invalid(Verdict(lines).value))
    else if Locked(b.lock, date) then Err(PeriodClosed)
    else if FirstUnknown(lines, b.accounts.Keys).Some?
      then Err(UnknownAccount(FirstUnknown(lines, b.accounts.Keys).value))
    else Ok(b.(vouchers := b.vouchers + [Voucher(series, LastNumber(b.vouchers, series) + 1, date, text, lines)]))
  }

  class Company {
    var accounts: map<string, string>
    var vouchers: seq<Voucher>
    var lock: Option<int>
    var years: map<nat, FiscalYear>

    constructor (accounts: map<string, string>)
      ensures Current() == Book(accounts, [], None, map[])
    {
      this.accounts, vouchers, lock, years := accounts, [], None, map[];
    }

    ghost function Current(): Book
      reads this
    {
      Book(accounts, vouchers, lock, years)
    }

    /** postVerification: validate, check the lock and the chart, number, append. */
    method PostVerification(series: string, date: int, text: string, lines: seq<Line>)
      returns (r: Result<int, Refusal>)
      requires LinesFit(lines)
      modifies this`vouchers
      ensures match Post(old(Current()), series, date, text, lines)
              case Ok(b) => Current() == b && r == Ok(vouchers[|vouchers| - 1].number)
              case Err(e) => Current() == old(Current()) && r == Err(e)
    {
      var fault := Validate(lines);
      if fault.Some? {
        return Err(Invalid(fault.value));
      }
      if lock.Some? && date <= lock.value {
        return Err(PeriodClosed);
      }
      var known := accounts.Keys;
      for i := 0 to |lines|
        invariant FirstUnknown(lines, known) == FirstUnknown(lines[i..], known)
      {
        assert lines[i..][0] == lines[i] && lines[i..][1..] == lines[i + 1..];
        if lines[i].account !in known {
          return Err(UnknownAccount(lines[i].account));
        }
      }
      var last := 0;
      for i := 0 to |vouchers|
        invariant last == LastNumber(vouchers[..i], series)
      {
        assert vouchers[..i + 1][..i] == vouchers[..i];
        if vouchers[i].series == series && vouchers[i].number > last {
          last := vouchers[i].number;
        }
      }
      assert vouchers[..|vouchers|] == vouchers;
      vouchers := vouchers + [Voucher(series, last + 1, date, text, lines)];
      r := Ok(last + 1);
    }

    method LockPeriod(through: int)
      modifies this`lock
      ensures Current() == old(Current()).(lock := Some(through))
    {
      lock := Some(through);
    }

    method UnlockPeriod()
      modifies this`lock
      ensures Current() == old(Current()).(lock := None)
    {
      lock := None;
    }
  }

  // ---- What every posting keeps ----

  function CountSeries(vs: seq<Voucher>, series: string): nat {
    if vs == [] then 0
    else CountSeries(vs[..|vs| - 1], series) + if vs[|vs| - 1].series == series then 1 else 0
  }

  predicate NumberedAt(vs: seq<Voucher>, i: nat)
    requires i < |vs|
  {
    vs[i].number == CountSeries(vs[..i], vs[i].series) + 1
  }

  ghost predicate Numbered(vs: seq<Voucher>) {
    forall i :: 0 <= i < |vs| ==> NumberedAt(vs, i)
  }

  ghost predicate KnownAccounts(lines: seq<Line>, accounts: map<string, string>) {
    forall l :: l in lines ==> l.account in accounts
  }

  /** Every voucher is a postable double entry over charted accounts, and the k-th
      voucher of a series carries number k. */
  ghost predicate WellKept(b: Book) {
    && (forall v :: v in b.vouchers ==> Postable(v.lines) && KnownAccounts(v.lines, b.accounts))
    && Numbered(b.vouchers)
  }

  lemma {:induction false} LastIsCount(vs: seq<Voucher>, series: string)
    requires Numbered(vs)
    ensures LastNumber(vs, series) == CountSeries(vs, series)
  {
    if vs != [] {
      var n := |vs| - 1;
      forall i | 0 <= i < n ensures NumberedAt(vs[..n], i) {
        assert NumberedAt(vs, i) && vs[..n][..i] == vs[..i];
      }
      assert NumberedAt(vs, n);
      LastIsCount(vs[..n], series);
    }
  }

  lemma {:induction false} AllKnown(lines: seq<Line>, known: set<string>)
    ensures FirstUnknown(lines, known).None? <==> forall l :: l in lines ==> l.account in known
  {
    if lines != [] {
      AllKnown(lines[1..], known);
      assert lines == [lines[0]] + lines[1..];
    }
  }

  lemma {:induction false} CoveredKnown(vs: seq<Voucher>, p: Reports.Period, accounts: map<string, string>)
    requires forall v :: v in vs ==> KnownAccounts(v.lines, accounts)
    ensures KnownAccounts(Reports.CoveredLines(vs, p), accounts)
  {
    if vs != [] {
      CoveredKnown(vs[..|vs| - 1], p, accounts);
      assert KnownAccounts(vs[|vs| - 1].lines, accounts);
    }
  }

  lemma {:induction false} GroupedKnown(lines: seq<Line>, accounts: map<string, string>)
    requires KnownAccounts(lines, accounts)
    ensures forall r :: r in Reports.Grouped(lines) ==> r.account in accounts
  {
    if lines != [] {
      var n := |lines| - 1;
      GroupedKnown(lines[..n], accounts);
      Reports.AddToRows(Reports.Grouped(lines[..n]), lines[n].account, lines[n].debit - lines[n].credit);
    }
  }

  /** The unknown account reported is that of the first line whose account is unknown. */
  lemma {:induction false} FirstUnknownIs(lines: seq<Line>, known: set<string>) returns (i: nat)
    requires FirstUnknown(lines, known).Some?
    ensures i < |lines| && FirstUnknown(lines, known) == Some(lines[i].account)
    ensures lines[i].account !in known && forall k :: 0 <= k < i ==> lines[k].account in known
  {
    if lines[0].account !in known {
      i := 0;
    } else {
      i := FirstUnknownIs(lines[1..], known);
      i := i + 1;
      assert forall k :: 0 < k < i ==> lines[k] == lines[1..][k - 1];
    }
  }

  /** Why a posting is refused: an invalid entry before all else, then the lock, then
      an account outside the chart. */
  lemma {:induction false} PostRefusals(b: Book, series: string, date: int, text: string, lines: seq<Line>)
    ensures var r := Post(b, series, date, text, lines);
            && (forall f :: r == Err(Invalid(f)) <==> Verdict(lines) == Some(f))
            && (r == Err(PeriodClosed) <==> Postable(lines) && b.lock.Some? && date <= b.lock.value)
            && (r.Err? && r.error.UnknownAccount? <==>
                  Postable(lines) && (b.lock.None? || date > b.lock.value) && !KnownAccounts(lines, b.accounts))
            && (r.Err? && r.error.UnknownAccount? ==>
                  exists i :: 0 <= i < |lines| && lines[i].account == r.error.number
                    && lines[i].account !in b.accounts && forall k :: 0 <= k < i ==> lines[k].account in b.accounts)
  {
    VerdictAccepts(lines);
    AllKnown(lines, b.accounts.Keys);
    if FirstUnknown(lines, b.accounts.Keys).Some? {
      var i := FirstUnknownIs(lines, b.accounts.Keys);
    }
  }

  /** A posting is accepted exactly when it is a postable entry over charted
      accounts dated after the lock; it keeps the books well kept, appends one
      voucher with the given content, and changes nothing posted before. */
  lemma {:induction false} PostKeepsBooks(b: Book, series: string, date: int, text: string, lines: seq<Line>)
    requires WellKept(b)
    ensures Post(b, series, date, text, lines).Ok? <==>
              Postable(lines) && KnownAccounts(lines, b.accounts) && (b.lock.None? || date > b.lock.value)
    ensures Post(b, series, date, text, lines).Ok? ==>
              var b' := Post(b, series, date, text, lines).value;
              && WellKept(b') && b' == b.(vouchers := b'.vouchers)
              && b'.vouchers == b.vouchers + [Voucher(series, CountSeries(b.vouchers, series) + 1, date, text, lines)]
  {
    VerdictAccepts(lines);
    AllKnown(lines, b.accounts.Keys);
    LastIsCount(b.vouchers, series);
    if Post(b, series, date, text, lines).Ok? {
      var vs := Post(b, series, date, text, lines).value.vouchers;
      forall i | 0 <= i < |vs| ensures NumberedAt(vs, i) {
        assert vs[..i] == b.vouchers[..i];
        assert i < |b.vouchers| ==> NumberedAt(b.vouchers, i);
        if i == |b.vouchers| {
          assert b.vouchers[..i] == b.vouchers;
        }
      }
    }
  }
}
