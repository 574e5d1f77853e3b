/** Runs of whole transactions over the books: what every run keeps, and what a
    period lock guarantees. */
module Runs {
  import opened Prelude
  import opened Ledger
  import Reports
  import opened Books
  import YearEnd

  datatype Entry = Entry(series: string, date: int, text: string, lines: seq<Line>)

  /** One committed or rolled-back transaction. Work covers every store operation
      that only adds accounts and posts vouchers (sales, payments, credit notes,
      purchases, bank bookings, corrections, imports). A year is closed on balances
      read at some earlier time, which may be anything. */
  datatype Step =
    | Work(accounts: seq<(string, string)>, entries: seq<Entry>)
    | LockThrough(date: int)
    | Unlock
    | OpenYear(id: nat, year: FiscalYear)
    | CloseYear(id: nat, rows: seq<Reports.Row>, text: string)

  function WithAccounts(b: Book, accounts: seq<(string, string)>): Book
    decreases |accounts|
  {
    if accounts == [] then b
    else WithAccounts(b.(accounts := b.accounts[accounts[0].0 := accounts[0].1]), accounts[1..])
  }

  function PostAll(b: Book, entries: seq<Entry>): Result<Book, Refusal>
    decreases |entries|
  {
    if entries == [] then Ok(b)
    else
      var e := entries[0];
      match Post(b, e.series, e.date, e.text, e.lines)
      case Err(why) => Err(why)
      case Ok(b') => PostAll(b', entries[1..])
  }

  /** The books after a step: unchanged if its transaction rolls back. */
  function After(b: Book, s: Step): Book {
    match s
    case Work(accounts, entries) =>
      (match PostAll(WithAccounts(b, accounts), entries) case Ok(b') => b' case Err(_) => b)
    case LockThrough(date) => b.(lock := Some(date))
    case Unlock => b.(lock := None)
    case OpenYear(id, year) => if id in b.years then b else b.(years := b.years[id := year])
    case CloseYear(id, rows, text) =>
      if id !in b.years then b
      else (match YearEnd.CloseWith(b, id, b.years[id], rows, text) case Ok(b') => b' case Err(_) => b)
  }

  function Run(b: Book, steps: seq<Step>): Book
    decreases |steps|
  {
    if steps == [] then b else Run(After(b, steps[0]), steps[1..])
  }

  // ---- Every run ----

  lemma {:induction false} WithAccountsGrows(b: Book, accounts: seq<(string, string)>)
    requires WellKept(b)
    ensures var b' := WithAccounts(b, accounts);
            WellKept(b') && b'.vouchers == b.vouchers && b'.lock == b.lock && b.accounts.Keys <= b'.accounts.Keys
    ensures forall i :: 0 <= i < |accounts| ==> accounts[i].0 in WithAccounts(b, accounts).accounts
    decreases |accounts|
  {
    if accounts != [] {
      var b1 := b.(accounts := b.accounts[accounts[0].0 := accounts[0].1]);
      assert forall v :: v in b.vouchers ==> KnownAccounts(v.lines, b1.accounts);
      WithAccountsGrows(b1, accounts[1..]);
      assert forall i :: 1 <= i < |accounts| ==> accounts[i] == accounts[1..][i - 1];
    }
  }

  /** Posting only appends, and only after the lock. */
  ghost predicate AppendsAfterLock(b: Book, b': Book) {
    && |b.vouchers| <= |b'.vouchers| && b'.vouchers[..|b.vouchers|] == b.vouchers
    && forall i :: |b.vouchers| <= i < |b'.vouchers| ==> !Locked(b.lock, b'.vouchers[i].date)
  }

  lemma {:induction false} AppendsCompose(b: Book, b1: Book, b2: Book)
    requires AppendsAfterLock(b, b1) && AppendsAfterLock(b1, b2) && b1.lock == b.lock
    ensures AppendsAfterLock(b, b2)
  {
    assert b2.vouchers[..|b.vouchers|] == b1.vouchers[..|b.vouchers|];
    assert forall i :: 0 <= i < |b1.vouchers| ==> b2.vouchers[i] == b2.vouchers[..|b1.vouchers|][i];
  }

  lemma {:induction false} PostAllAppends(b: Book, entries: seq<Entry>)
    requires WellKept(b) && PostAll(b, entries).Ok?
    ensures var b' := PostAll(b, entries).value;
            WellKept(b') && AppendsAfterLock(b, b') && b'.lock == b.lock && b'.accounts == b.accounts
    decreases |entries|
  {
    if entries == [] {
      assert b.vouchers[..|b.vouchers|] == b.vouchers;
    } else {
      var e := entries[0];
      PostKeepsBooks(b, e.series, e.date, e.text, e.lines);
      var b1 := Post(b, e.series, e.date, e.text, e.lines).value;
      PostAllAppends(b1, entries[1..]);
      AppendsCompose(b, b1, PostAll(b, entries).value);
    }
  }

  lemma {:induction false} StepKeepsBooks(b: Book, s: Step)
    requires WellKept(b)
    ensures WellKept(After(b, s)) && AppendsAfterLock(b, After(b, s))
  {
    assert b.vouchers[..|b.vouchers|] == b.vouchers;
    match s {
      case Work(accounts, entries) =>
        WithAccountsGrows(b, accounts);
        if PostAll(WithAccounts(b, accounts), entries).Ok? {
          PostAllAppends(WithAccounts(b, accounts), entries);
        }
      case CloseYear(id, rows, text) =>
        if id in b.years && YearEnd.CloseWith(b, id, b.years[id], rows, text).Ok? {
          var v := YearEnd.ClosePosts(b, id, b.years[id], rows, text);
        }
      case _ =>
    }
  }

  /** Over every run: posted vouchers never change, every voucher is a postable
      entry over charted accounts, numbers in each series have no gap, and every
      trial balance sums to zero. */
  lemma {:induction false} RunKeepsBooks(b: Book, steps: seq<Step>, p: Reports.Period)
    requires WellKept(b)
    ensures WellKept(Run(b, steps)) && b.vouchers <= Run(b, steps).vouchers
    ensures Reports.RowsNet(Reports.TrialBalance(Run(b, steps).vouchers, p), All) == 0
    decreases |steps|
  {
    if steps != [] {
      StepKeepsBooks(b, steps[0]);
      RunKeepsBooks(After(b, steps[0]), steps[1..], p);
    } else {
      Reports.TrialBalanceNet(b.vouchers, p, All);
    }
  }

  /** What the other steps do: the lock is set or cleared whatever it was, and a year is
      opened once. */
  lemma {:induction false} StepSets(b: Book, date: int, id: nat, year: FiscalYear)
    ensures After(b, LockThrough(date)) == Book(b.accounts, b.vouchers, Some(date), b.years)
    ensures After(b, Unlock) == Book(b.accounts, b.vouchers, None, b.years)
    ensures id in b.years ==> After(b, OpenYear(id, year)) == b
    ensures id !in b.years ==>
              After(b, OpenYear(id, year)) == Book(b.accounts, b.vouchers, b.lock, b.years[id := year])
  {
  }

  // ---- The lock ----

  /** The lock stays at or after L throughout the run. */
  predicate LockHolds(b: Book, steps: seq<Step>, L: int)
    decreases |steps|
  {
    && b.lock.Some? && b.lock.value >= L
    && (steps == [] || LockHolds(After(b, steps[0]), steps[1..], L))
  }

  predicate EndsBy(p: Reports.Period, L: int) {
    !p.Always? && p.to <= L
  }

  lemma {:induction false} LateVouchersUncovered(vs: seq<Voucher>, more: seq<Voucher>, p: Reports.Period, L: int)
    requires EndsBy(p, L) && forall i :: 0 <= i < |more| ==> more[i].date > L
    ensures Reports.CoveredLines(vs + more, p) == Reports.CoveredLines(vs, p)
  {
    if more == [] {
      assert vs + more == vs;
    } else {
      var n := |more| - 1;
      LateVouchersUncovered(vs, more[..n], p, L);
      assert (vs + more)[..|vs + more| - 1] == vs + more[..n];
    }
  }

  /** While the lock stays at or after L, no run changes any row of any trial
      balance ending on or before L. */
  lemma {:induction false} LockFreezesReports(b: Book, steps: seq<Step>, p: Reports.Period, L: int)
    requires WellKept(b) && LockHolds(b, steps, L) && EndsBy(p, L)
    ensures Reports.TrialBalance(Run(b, steps).vouchers, p) == Reports.TrialBalance(b.vouchers, p)
    decreases |steps|
  {
    if steps != [] {
      var b1 := After(b, steps[0]);
      StepKeepsBooks(b, steps[0]);
      LockFreezesReports(b1, steps[1..], p, L);
      assert b1.vouchers == b.vouchers + b1.vouchers[|b.vouchers|..];
      LateVouchersUncovered(b.vouchers, b1.vouchers[|b.vouchers|..], p, L);
    }
  }

  /** Only LockThrough and Unlock can lower or clear the lock; closing a year cannot. */
  lemma {:induction false} OnlyLockStepsLowerIt(b: Book, s: Step, L: int)
    requires WellKept(b) && b.lock == Some(L) && !s.LockThrough? && !s.Unlock?
    ensures After(b, s).lock.Some? && After(b, s).lock.value >= L
  {
    match s {
      case Work(accounts, entries) =>
        WithAccountsGrows(b, accounts);
        if PostAll(WithAccounts(b, accounts), entries).Ok? {
          PostAllAppends(WithAccounts(b, accounts), entries);
        }
      case CloseYear(id, rows, text) =>
        if id in b.years && YearEnd.CloseWith(b, id, b.years[id], rows, text).Ok? {
          var v := YearEnd.ClosePosts(b, id, b.years[id], rows, text);
        }
      case OpenYear(_, _) =>
    }
  }
}
