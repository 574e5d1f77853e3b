/** Concurrent postings: the lock, the chart and MAX+1 are read in one statement each,
    and the voucher is inserted under a unique key in another. */
module Numbering {
  import opened Prelude
  import opened Ledger
  import Reports
  import opened Books
  import Runs

  /** A posting under way: not locked out, then checked against the chart, then numbered. */
  datatype Progress =
    | Idle
    | NotLocked(entry: Runs.Entry)
    | Checked(entry: Runs.Entry)
    | HasNumber(entry: Runs.Entry, number: int)

  /** A transaction in flight. Its vouchers, its accounts and the lock it sets are
      visible only to itself. */
  datatype Writer = Writer(
    pending: seq<Voucher>, accounts: set<string>, progress: Progress, lock: Option<Option<int>>)

  datatype Tables = Tables(vouchers: seq<Voucher>, accounts: set<string>, lock: Option<int>, writers: seq<Writer>)

  datatype Event =
    | AddAccount(w: nat, number: string)
    | SetLock(w: nat, lock: Option<int>)
    | ReadLock(w: nat, entry: Runs.Entry)
    | ReadChart(w: nat)
    | ReadNumber(w: nat)
    | InsertVoucher(w: nat)
    | Commit(w: nat)
    | Abort(w: nat)

  const FRESH := Writer([], {}, Idle, None)

  function Visible(s: Tables, w: nat): seq<Voucher>
    requires w < |s.writers|
  {
    s.vouchers + s.writers[w].pending
  }

  function Chart(s: Tables, w: nat): set<string>
    requires w < |s.writers|
  {
    s.accounts + s.writers[w].accounts
  }

  predicate Taken(vs: seq<Voucher>, series: string, number: int) {
    exists i :: 0 <= i < |vs| && vs[i].series == series && vs[i].number == number
  }

  predicate TakenByOther(s: Tables, w: nat, series: string, number: int) {
    exists v :: 0 <= v < |s.writers| && v != w && Taken(s.writers[v].pending, series, number)
  }

  function Set(s: Tables, w: nat, writer: Writer): Tables
    requires w < |s.writers|
  {
    s.(writers := s.writers[w := writer])
  }

  predicate LockedByOther(s: Tables, w: nat) {
    exists v :: 0 <= v < |s.writers| && v != w && s.writers[v].lock.Some?
  }

  /** One statement of one transaction. A refused entry and a duplicate number abort
      the transaction; a number another transaction holds uncommitted, or its update of
      the lock, makes it wait. A transaction that sets the lock does so last. */
  function Next(s: Tables, e: Event): Tables {
    if e.w >= |s.writers| then s
    else
      var t := s.writers[e.w];
      match e
      case AddAccount(w, number) =>
        if t.progress.Idle? && t.lock.None? then Set(s, w, t.(accounts := t.accounts + {number})) else s
      case SetLock(w, lock) =>
        if t.progress.Idle? && t.lock.None? && !LockedByOther(s, w) then Set(s, w, t.(lock := Some(lock))) else s
      case ReadLock(w, entry) =>
        if !t.progress.Idle? || t.lock.Some? then s
        else if Verdict(entry.lines).Some? || Locked(s.lock, entry.date) then Set(s, w, FRESH)
        else Set(s, w, t.(progress := NotLocked(entry)))
      case ReadChart(w) =>
        if !t.progress.NotLocked? then s
        else if FirstUnknown(t.progress.entry.lines, Chart(s, w)).Some? then Set(s, w, FRESH)
        else Set(s, w, t.(progress := Checked(t.progress.entry)))
      case ReadNumber(w) =>
        if t.progress.Checked? then
          Set(s, w, t.(progress := HasNumber(t.progress.entry, LastNumber(Visible(s, w), t.progress.entry.series) + 1)))
        else s
      case InsertVoucher(w) =>
        if !t.progress.HasNumber? then s
        else
          var e, n := t.progress.entry, t.progress.number;
          if Taken(Visible(s, w), e.series, n) then Set(s, w, FRESH)
          else if TakenByOther(s, w, e.series, n) then s
          else Set(s, w, t.(pending := t.pending + [Voucher(e.series, n, e.date, e.text, e.lines)], progress := Idle))
      case Commit(w) =>
        if t.progress.Idle? then
          Set(s, w, FRESH).(vouchers := s.vouchers + t.pending, accounts := s.accounts + t.accounts,
                            lock := if t.lock.Some? then t.lock.value else s.lock)
        else s
      case Abort(w) => Set(s, w, FRESH)
  }

  function Run(s: Tables, events: seq<Event>): Tables
    decreases |events|
  {
    if events == [] then s else Run(Next(s, events[0]), events[1..])
  }

  // ---- One lock update at a time ----

  ghost predicate OneLocker(s: Tables) {
    forall v, w :: 0 <= v < w < |s.writers| ==> s.writers[v].lock.None? || s.writers[w].lock.None?
  }

  lemma {:induction false} NextKeepsOneLocker(s: Tables, e: Event)
    requires OneLocker(s)
    ensures OneLocker(Next(s, e))
  {
    if e.w < |s.writers| && Next(s, e).writers[e.w].lock.Some? && s.writers[e.w].lock.None? {
      assert !LockedByOther(s, e.w);
    }
  }

  /** Over every interleaving at most one transaction holds an update of the lock. */
  lemma {:induction false} LockUpdatesExclude(s: Tables, events: seq<Event>)
    requires OneLocker(s)
    ensures OneLocker(Run(s, events))
    decreases |events|
  {
    if events != [] {
      NextKeepsOneLocker(s, events[0]);
      LockUpdatesExclude(Next(s, events[0]), events[1..]);
    }
  }

  // ---- Numbers without gaps ----

  lemma {:induction false} CountAppend(xs: seq<Voucher>, ys: seq<Voucher>, series: string)
    ensures CountSeries(xs + ys, series) == CountSeries(xs, series) + CountSeries(ys, series)
  {
    if ys == [] {
      assert xs + ys == xs;
    } else {
      var n := |ys| - 1;
      CountAppend(xs, ys[..n], series);
      assert (xs + ys)[..|xs + ys| - 1] == xs + ys[..n];
    }
  }

  predicate Uses(vs: seq<Voucher>, series: string) {
    exists i :: 0 <= i < |vs| && vs[i].series == series
  }

  lemma {:induction false} UnusedCount(vs: seq<Voucher>, series: string)
    ensures CountSeries(vs, series) == 0 <==> !Uses(vs, series)
  {
    if vs != [] {
      var n := |vs| - 1;
      UnusedCount(vs[..n], series);
      assert vs == vs[..n] + [vs[n]];
      if Uses(vs[..n], series) {
        var i :| 0 <= i < n && vs[..n][i].series == series;
        assert vs[i].series == series;
      }
      assert vs[n].series == series ==> Uses(vs, series);
    }
  }

  lemma {:induction false} NumberedPrefix(vs: seq<Voucher>, k: nat)
    requires Numbered(vs) && k <= |vs|
    ensures Numbered(vs[..k])
  {
    forall i | 0 <= i < k ensures NumberedAt(vs[..k], i) {
      assert NumberedAt(vs, i) && vs[..k][..i] == vs[..i];
    }
  }

  lemma {:induction false} NumberedSnoc(vs: seq<Voucher>, v: Voucher)
    requires Numbered(vs) && v.number == CountSeries(vs, v.series) + 1
    ensures Numbered(vs + [v])
  {
    forall i | 0 <= i <= |vs| ensures NumberedAt(vs + [v], i) {
      assert (vs + [v])[..i] == vs[..i];
      assert i < |vs| ==> NumberedAt(vs, i);
      assert vs[..|vs|] == vs;
    }
  }

  /** The numbers of a series are exactly 1 up to how many it has, each once. */
  lemma {:induction false} NumbersAreExactly(vs: seq<Voucher>, series: string, n: int)
    requires Numbered(vs)
    ensures Taken(vs, series, n) <==> 1 <= n <= CountSeries(vs, series)
    ensures forall i, j :: 0 <= i < j < |vs| && vs[i].series == vs[j].series == series ==> vs[i].number != vs[j].number
  {
    if vs != [] {
      var k := |vs| - 1;
      NumberedPrefix(vs, k);
      assert NumberedAt(vs, k);
      NumbersAreExactly(vs[..k], series, n);
      forall i, j | 0 <= i < j < |vs| && vs[i].series == vs[j].series == series ensures vs[i].number != vs[j].number {
        if j == k {
          NumbersAreExactly(vs[..k], series, vs[k].number);
          assert vs[..k][i] == vs[i];
        } else {
          assert vs[..k][i] == vs[i] && vs[..k][j] == vs[j];
        }
      }
    }
  }

  /** Vouchers of other series may be slipped in between. */
  lemma {:induction false} NumberedInsert(xs: seq<Voucher>, mid: seq<Voucher>, ys: seq<Voucher>)
    requires Numbered(xs + mid) && Numbered(xs + ys) && forall series :: !(Uses(mid, series) && Uses(ys, series))
    ensures Numbered(xs + mid + ys)
  {
    var all := xs + mid + ys;
    forall i | 0 <= i < |all| ensures NumberedAt(all, i) {
      if i < |xs| + |mid| {
        assert NumberedAt(xs + mid, i) && all[..i] == (xs + mid)[..i];
      } else {
        var j := i - |xs| - |mid|;
        var series := ys[j].series;
        assert NumberedAt(xs + ys, |xs| + j);
        assert all[..i] == xs + mid + ys[..j] && (xs + ys)[..|xs| + j] == xs + ys[..j];
        CountAppend(xs + mid, ys[..j], series);
        CountAppend(xs, mid, series);
        CountAppend(xs, ys[..j], series);
        assert Uses(ys, series);
        UnusedCount(mid, series);
      }
    }
  }

  /** Uncommitted vouchers of a series begin with its next number. */
  lemma {:induction false} PendingTakesNext(vs: seq<Voucher>, pending: seq<Voucher>, series: string)
    requires Numbered(vs + pending) && Uses(pending, series)
    ensures Taken(pending, series, CountSeries(vs, series) + 1)
    decreases |pending|
  {
    var k := |pending| - 1;
    assert vs + pending == vs + pending[..k] + [pending[k]];
    NumberedPrefix(vs + pending, |vs| + k);
    assert (vs + pending)[..|vs| + k] == vs + pending[..k];
    if Uses(pending[..k], series) {
      PendingTakesNext(vs, pending[..k], series);
    } else {
      assert NumberedAt(vs + pending, |vs| + k);
      CountAppend(vs, pending[..k], series);
      UnusedCount(pending[..k], series);
    }
  }

  // ---- What every interleaving keeps ----

  ghost predicate Entered(vs: seq<Voucher>, chart: set<string>) {
    forall v :: v in vs ==> Postable(v.lines) && forall l :: l in v.lines ==> l.account in chart
  }

  ghost predicate ProgressSound(p: Progress, vs: seq<Voucher>, chart: set<string>) {
    && (!p.Idle? ==> Postable(p.entry.lines))
    && (p.Checked? || p.HasNumber? ==> forall l :: l in p.entry.lines ==> l.account in chart)
    && (p.HasNumber? ==> 1 <= p.number <= CountSeries(vs, p.entry.series) + 1)
  }

  ghost predicate WriterSound(s: Tables, w: nat)
    requires w < |s.writers|
  {
    && Numbered(Visible(s, w)) && Entered(Visible(s, w), Chart(s, w))
    && ProgressSound(s.writers[w].progress, Visible(s, w), Chart(s, w))
  }

  ghost predicate Apart(xs: seq<Voucher>, ys: seq<Voucher>) {
    forall series :: !(Uses(xs, series) && Uses(ys, series))
  }

  /** Every transaction sees books without gaps over charted accounts, and no two
      have uncommitted vouchers of one series. */
  ghost predicate Sound(s: Tables) {
    && Numbered(s.vouchers) && Entered(s.vouchers, s.accounts)
    && (forall w :: 0 <= w < |s.writers| ==> WriterSound(s, w))
    && (forall v, w :: 0 <= v < |s.writers| && 0 <= w < |s.writers| && v != w ==>
        Apart(s.writers[v].pending, s.writers[w].pending))
  }

  lemma {:induction false} OthersUntouched(s: Tables, w: nat, writer: Writer)
    requires Sound(s) && w < |s.writers| && WriterSound(Set(s, w, writer), w)
    requires forall v :: 0 <= v < |s.writers| && v != w ==> Apart(s.writers[v].pending, writer.pending)
    ensures Sound(Set(s, w, writer))
  {
    var s' := Set(s, w, writer);
    forall v | 0 <= v < |s'.writers| ensures WriterSound(s', v) {
      if v != w {
        assert WriterSound(s, v);
        assert Visible(s', v) == Visible(s, v) && Chart(s', v) == Chart(s, v);
      }
    }
  }

  lemma {:induction false} FreshKeeps(s: Tables, w: nat)
    requires Sound(s) && w < |s.writers|
    ensures Sound(Set(s, w, FRESH))
  {
    assert Visible(Set(s, w, FRESH), w) == s.vouchers && Chart(Set(s, w, FRESH), w) == s.accounts;
    OthersUntouched(s, w, FRESH);
  }

  /** Steps that only change how far a writer has come. */
  lemma {:induction false} ProgressKeeps(s: Tables, w: nat, p: Progress)
    requires Sound(s) && w < |s.writers| && ProgressSound(p, Visible(s, w), Chart(s, w))
    ensures Sound(Set(s, w, s.writers[w].(progress := p)))
  {
    var writer := s.writers[w].(progress := p);
    assert WriterSound(s, w);
    assert Visible(Set(s, w, writer), w) == Visible(s, w) && Chart(Set(s, w, writer), w) == Chart(s, w);
    OthersUntouched(s, w, writer);
  }

  lemma {:induction false} AccountKeeps(s: Tables, w: nat, number: string)
    requires Sound(s) && w < |s.writers| && s.writers[w].progress.Idle?
    ensures Sound(Set(s, w, s.writers[w].(accounts := s.writers[w].accounts + {number})))
  {
    var writer := s.writers[w].(accounts := s.writers[w].accounts + {number});
    assert WriterSound(s, w);
    assert Visible(Set(s, w, writer), w) == Visible(s, w) && Chart(s, w) <= Chart(Set(s, w, writer), w);
    OthersUntouched(s, w, writer);
  }

  lemma {:induction false} LockKeeps(s: Tables, w: nat, lock: Option<Option<int>>)
    requires Sound(s) && w < |s.writers|
    ensures Sound(Set(s, w, s.writers[w].(lock := lock)))
  {
    var writer := s.writers[w].(lock := lock);
    assert WriterSound(s, w);
    assert Visible(Set(s, w, writer), w) == Visible(s, w) && Chart(Set(s, w, writer), w) == Chart(s, w);
    OthersUntouched(s, w, writer);
  }

  lemma {:induction false} ChartKeeps(s: Tables, w: nat)
    requires Sound(s) && w < |s.writers| && s.writers[w].progress.NotLocked?
    ensures Sound(Next(s, ReadChart(w)))
  {
    var e := s.writers[w].progress.entry;
    assert WriterSound(s, w);
    AllKnown(e.lines, Chart(s, w));
    FreshKeeps(s, w);
    if FirstUnknown(e.lines, Chart(s, w)).None? {
      ProgressKeeps(s, w, Checked(e));
    }
  }

  lemma {:induction false} ReadKeeps(s: Tables, w: nat)
    requires Sound(s) && w < |s.writers| && s.writers[w].progress.Checked?
    ensures Sound(Next(s, ReadNumber(w)))
  {
    var e, vs := s.writers[w].progress.entry, Visible(s, w);
    assert WriterSound(s, w);
    LastIsCount(vs, e.series);
    ProgressKeeps(s, w, HasNumber(e, LastNumber(vs, e.series) + 1));
  }

  /** An insert goes through only with the next number, and only if no other
      transaction has uncommitted vouchers of the series. */
  lemma {:induction false} InsertIsNext(s: Tables, w: nat)
    requires Sound(s) && w < |s.writers| && s.writers[w].progress.HasNumber?
    requires var p := s.writers[w].progress;
             !Taken(Visible(s, w), p.entry.series, p.number) && !TakenByOther(s, w, p.entry.series, p.number)
    ensures var p := s.writers[w].progress;
            && p.number == CountSeries(Visible(s, w), p.entry.series) + 1
            && forall v :: 0 <= v < |s.writers| && v != w ==> !Uses(s.writers[v].pending, p.entry.series)
  {
    var p := s.writers[w].progress;
    assert WriterSound(s, w);
    NumbersAreExactly(Visible(s, w), p.entry.series, p.number);
    forall v | 0 <= v < |s.writers| && v != w ensures !Uses(s.writers[v].pending, p.entry.series) {
      assert Apart(s.writers[v].pending, s.writers[w].pending);
      if Uses(s.writers[v].pending, p.entry.series) {
        assert WriterSound(s, v);
        PendingTakesNext(s.vouchers, s.writers[v].pending, p.entry.series);
        CountAppend(s.vouchers, s.writers[w].pending, p.entry.series);
        UnusedCount(s.writers[w].pending, p.entry.series);
      }
    }
  }

  lemma {:induction false} InsertKeeps(s: Tables, w: nat)
    requires Sound(s) && w < |s.writers| && s.writers[w].progress.HasNumber?
    ensures Sound(Next(s, InsertVoucher(w)))
  {
    var t, p := s.writers[w], s.writers[w].progress;
    if Taken(Visible(s, w), p.entry.series, p.number) {
      FreshKeeps(s, w);
    } else if !TakenByOther(s, w, p.entry.series, p.number) {
      var v := Voucher(p.entry.series, p.number, p.entry.date, p.entry.text, p.entry.lines);
      var writer := t.(pending := t.pending + [v], progress := Idle);
      assert WriterSound(s, w);
      InsertIsNext(s, w);
      NumberedSnoc(Visible(s, w), v);
      assert Visible(Set(s, w, writer), w) == Visible(s, w) + [v] && Chart(Set(s, w, writer), w) == Chart(s, w);
      OthersUntouched(s, w, writer);
    }
  }

  /** What another transaction sees once w has committed. */
  lemma {:induction false} CommitOther(s: Tables, w: nat, v: nat)
    requires Sound(s) && w < |s.writers| && v < |s.writers| && v != w && s.writers[w].progress.Idle?
    ensures WriterSound(Next(s, Commit(w)), v)
  {
    var s', mine, others := Next(s, Commit(w)), s.writers[w].pending, s.writers[v].pending;
    assert WriterSound(s, w) && WriterSound(s, v);
    assert Apart(mine, others);
    NumberedInsert(s.vouchers, mine, others);
    assert Visible(s', v) == s.vouchers + mine + others;
    assert Chart(s, w) <= Chart(s', v) && Chart(s, v) <= Chart(s', v);
    if s.writers[v].progress.HasNumber? {
      var series := s.writers[v].progress.entry.series;
      CountAppend(s.vouchers + mine, others, series);
      CountAppend(s.vouchers, mine, series);
      CountAppend(s.vouchers, others, series);
    }
  }

  lemma {:induction false} CommitKeeps(s: Tables, w: nat)
    requires Sound(s) && w < |s.writers| && s.writers[w].progress.Idle?
    ensures Sound(Next(s, Commit(w)))
  {
    var s' := Next(s, Commit(w));
    assert WriterSound(s, w);
    assert s'.vouchers == Visible(s, w) && s'.accounts == Chart(s, w);
    forall v | 0 <= v < |s'.writers| ensures WriterSound(s', v) {
      if v != w {
        CommitOther(s, w, v);
      } else {
        assert Visible(s', w) == s'.vouchers && Chart(s', w) == s'.accounts;
      }
    }
  }

  lemma {:induction false} StepKeeps(s: Tables, e: Event)
    requires Sound(s)
    ensures Sound(Next(s, e)) && s.vouchers <= Next(s, e).vouchers && s.accounts <= Next(s, e).accounts
  {
    if e.w < |s.writers| {
      match e {
        case AddAccount(w, number) =>
          if s.writers[w].progress.Idle? {
            AccountKeeps(s, w, number);
          }
        case SetLock(w, lock) => LockKeeps(s, w, Some(lock));
        case ReadLock(w, entry) =>
          FreshKeeps(s, w);
          VerdictAccepts(entry.lines);
          if Verdict(entry.lines).None? {
            ProgressKeeps(s, w, NotLocked(entry));
          }
        case ReadChart(w) =>
          if s.writers[w].progress.NotLocked? {
            ChartKeeps(s, w);
          }
        case ReadNumber(w) =>
          if s.writers[w].progress.Checked? {
            ReadKeeps(s, w);
          }
        case InsertVoucher(w) =>
          if s.writers[w].progress.HasNumber? {
            InsertKeeps(s, w);
          }
        case Commit(w) =>
          if s.writers[w].progress.Idle? {
            CommitKeeps(s, w);
          }
        case Abort(w) => FreshKeeps(s, w);
      }
    }
  }

  lemma {:induction false} InterleavingsKeep(s: Tables, events: seq<Event>)
    requires Sound(s)
    ensures Sound(Run(s, events)) && s.vouchers <= Run(s, events).vouchers
    decreases |events|
  {
    if events != [] {
      StepKeeps(s, events[0]);
      InterleavingsKeep(Next(s, events[0]), events[1..]);
    }
  }

  function Start(accounts: set<string>, lock: Option<int>, writers: nat): Tables {
    Tables([], accounts, lock, seq(writers, _ => FRESH))
  }

  lemma {:induction false} StartsSound(accounts: set<string>, lock: Option<int>, writers: nat)
    ensures Sound(Start(accounts, lock, writers))
  {
  }

  /** Any number of transactions that post and lock, interleaved at every statement and ending
      in commit or rollback: the committed numbers of each series are exactly 1..n,
      each once; every voucher balances over charted accounts; the trial balance sums
      to zero in every period; and what was committed stays. */
  lemma {:induction false} NumbersHaveNoGaps(accounts: set<string>, lock: Option<int>, writers: nat,
      before: seq<Event>, more: seq<Event>, series: string, n: int, p: Reports.Period)
    ensures var vs := Run(Start(accounts, lock, writers), before).vouchers;
            && (Taken(vs, series, n) <==> 1 <= n <= CountSeries(vs, series))
            && (forall i, j :: 0 <= i < j < |vs| && vs[i].series == vs[j].series == series ==>
                vs[i].number != vs[j].number)
            && Entered(vs, Run(Start(accounts, lock, writers), before).accounts)
            && Reports.RowsNet(Reports.TrialBalance(vs, p), All) == 0
            && vs <= Run(Run(Start(accounts, lock, writers), before), more).vouchers
  {
    var s0 := Start(accounts, lock, writers);
    StartsSound(accounts, lock, writers);
    InterleavingsKeep(s0, before);
    var s := Run(s0, before);
    InterleavingsKeep(s, more);
    NumbersAreExactly(s.vouchers, series, n);
    Reports.TrialBalanceNet(s.vouchers, p, All);
  }
}
