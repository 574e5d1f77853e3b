/** The period lock under concurrent postings: a posting reads the lock once, and a
    lock committed after that does not stop it. */
module LockRaces {
  import opened Prelude
  import opened Ledger
  import Reports
  import Books
  import Runs
  import opened Numbering

  predicate Held(lock: Option<int>, L: int) {
    lock.Some? && lock.value >= L
  }

  /** The committed lock stays at or after L at every step. */
  ghost predicate StaysLocked(s: Tables, events: seq<Event>, L: int)
    decreases |events|
  {
    Held(s.lock, L) && (events == [] || StaysLocked(Next(s, events[0]), events[1..], L))
  }

  /** What was committed since s. */
  function Since(s: Tables, s': Tables): seq<Voucher> {
    if |s.vouchers| <= |s'.vouchers| then s'.vouchers[|s.vouchers|..] else []
  }

  lemma {:induction false} NextAppends(s: Tables, e: Event)
    ensures |Next(s, e).writers| == |s.writers|
    ensures s.vouchers <= Next(s, e).vouchers
    ensures Since(s, Next(s, e)) == if e.Commit? && e.w < |s.writers| && s.writers[e.w].progress.Idle?
                                    then s.writers[e.w].pending else []
  {
  }

  // ---- What can still get in ----

  predicate Carries(v: Voucher, e: Runs.Entry) {
    v.series == e.series && v.date == e.date && v.text == e.text && v.lines == e.lines
  }

  /** Writer t has read the lock for e. */
  predicate PassedFor(t: Writer, e: Runs.Entry) {
    !t.progress.Idle? && t.progress.entry == e
  }

  /** A voucher that some transaction had inserted, or had read the lock for, in s. */
  predicate UnderWay(s: Tables, v: Voucher) {
    exists w :: 0 <= w < |s.writers| && (v in s.writers[w].pending || UnderWayAs(s.writers[w], v))
  }

  predicate UnderWayAs(t: Writer, v: Voucher) {
    !t.progress.Idle? && Carries(v, t.progress.entry)
  }

  predicate EntryUnderWay(s: Tables, e: Runs.Entry) {
    exists w :: 0 <= w < |s.writers| && PassedFor(s.writers[w], e)
  }

  /** Vouchers dated by L stem from s. */
  predicate Early(s: Tables, vs: seq<Voucher>, L: int) {
    forall v :: v in vs ==> v.date > L || UnderWay(s, v)
  }

  predicate EarlyWriter(s: Tables, t: Writer, L: int) {
    Early(s, t.pending, L) && (t.progress.Idle? || t.progress.entry.date > L || EntryUnderWay(s, t.progress.entry))
  }

  predicate AllEarly(s: Tables, s': Tables, L: int) {
    forall w :: 0 <= w < |s'.writers| ==> EarlyWriter(s, s'.writers[w], L)
  }

  lemma {:induction false} EarlyStep(s: Tables, s': Tables, e: Event, L: int)
    requires AllEarly(s, s', L) && Held(s'.lock, L)
    ensures AllEarly(s, Next(s', e), L) && Early(s, Since(s', Next(s', e)), L)
  {
    NextAppends(s', e);
    if e.w < |s'.writers| {
      var t, t' := s'.writers[e.w], Next(s', e).writers[e.w];
      assert EarlyWriter(s, t, L);
      if e.InsertVoucher? && t.progress.HasNumber? && t'.progress.Idle? && t' != FRESH {
        var v := Voucher(t.progress.entry.series, t.progress.number, t.progress.entry.date, t.progress.entry.text,
                         t.progress.entry.lines);
        InsertedEarly(s, t.progress.entry, v, L);
      }
      assert EarlyWriter(s, t', L);
      forall w | 0 <= w < |s'.writers| ensures EarlyWriter(s, Next(s', e).writers[w], L) {
        assert w != e.w ==> Next(s', e).writers[w] == s'.writers[w];
        assert EarlyWriter(s, s'.writers[w], L);
      }
    }
  }

  lemma {:induction false} InsertedEarly(s: Tables, e: Runs.Entry, v: Voucher, L: int)
    requires (e.date > L || EntryUnderWay(s, e)) && Carries(v, e)
    ensures v.date > L || UnderWay(s, v)
  {
    if EntryUnderWay(s, e) {
      var w :| 0 <= w < |s.writers| && PassedFor(s.writers[w], e);
      assert UnderWayAs(s.writers[w], v);
    }
  }

  lemma {:induction false} EarlyRun(s: Tables, s': Tables, events: seq<Event>, L: int)
    requires s.vouchers <= s'.vouchers && AllEarly(s, s', L) && Early(s, Since(s, s'), L) && StaysLocked(s', events, L)
    ensures s.vouchers <= Run(s', events).vouchers && Early(s, Since(s, Run(s', events)), L)
    decreases |events|
  {
    if events != [] {
      var s1 := Next(s', events[0]);
      EarlyStep(s, s', events[0], L);
      NextAppends(s', events[0]);
      assert Since(s, s1) == Since(s, s') + Since(s', s1);
      EarlyRun(s, s1, events[1..], L);
    }
  }

  /** While the lock stays at or after L, whatever the interleaving: a voucher dated by
      L is committed only if it was inserted, or its posting had read the lock, before. */
  lemma {:induction false} OnlyEarlyReadersGetIn(s: Tables, events: seq<Event>, L: int, v: Voucher)
    requires StaysLocked(s, events, L) && v in Since(s, Run(s, events)) && v.date <= L
    ensures UnderWay(s, v)
  {
    forall w | 0 <= w < |s.writers| ensures EarlyWriter(s, s.writers[w], L) {
      forall x | x in s.writers[w].pending ensures UnderWay(s, x) {
        assert x in s.writers[w].pending;
      }
      assert !s.writers[w].progress.Idle? ==> PassedFor(s.writers[w], s.writers[w].progress.entry);
    }
    EarlyRun(s, s, events, L);
  }

  // ---- Exactly when nothing gets in ----

  predicate HoldsDated(t: Writer, L: int) {
    (exists i :: 0 <= i < |t.pending| && t.pending[i].date <= L) || (!t.progress.Idle? && t.progress.entry.date <= L)
  }

  /** Transaction w can still commit without moving the lock before L: its number is
      free, and an account it lacks can still come from another transaction. */
  predicate CanLand(s: Tables, w: nat, L: int)
    requires w < |s.writers|
  {
    var t := s.writers[w];
    && (t.lock.None? || Held(t.lock.value, L))
    && match t.progress
       case NotLocked(e) => |s.writers| >= 2 || FirstUnknownIn(s, w).None?
       case HasNumber(e, n) => !Taken(Visible(s, w), e.series, n)
       case _ => true
  }

  function FirstUnknownIn(s: Tables, w: nat): Option<string>
    requires w < |s.writers| && !s.writers[w].progress.Idle?
  {
    Books.FirstUnknown(s.writers[w].progress.entry.lines, Chart(s, w))
  }

  /** Transaction w has something dated by L under way and can still commit it. */
  predicate Late(s: Tables, w: nat, L: int)
    requires w < |s.writers|
  {
    CanLand(s, w, L) && HoldsDated(s.writers[w], L)
  }

  predicate NoneLate(s: Tables, L: int) {
    forall w :: 0 <= w < |s.writers| ==> !Late(s, w, L)
  }

  /** No step of another transaction makes w late. */
  lemma {:induction false} OtherStaysInTime(s: Tables, e: Event, w: nat, L: int)
    requires w < |s.writers| && e.w != w && !Late(s, w, L)
    ensures w < |Next(s, e).writers| && !Late(Next(s, e), w, L)
  {
    var s' := Next(s, e);
    NextAppends(s, e);
    if e.w < |s.writers| {
      assert s'.writers[w] == s.writers[w];
      if s.writers[w].progress.HasNumber? && CanLand(s', w, L) {
        var p := s.writers[w].progress;
        StillTaken(s.vouchers, s'.vouchers, s.writers[w].pending, p.entry.series, p.number);
      }
    }
  }

  lemma {:induction false} StillTaken(
    vs: seq<Voucher>, vs': seq<Voucher>, pending: seq<Voucher>, series: string, n: int)
    requires vs <= vs'
    ensures Taken(vs + pending, series, n) ==> Taken(vs' + pending, series, n)
  {
    if i :| 0 <= i < |vs + pending| && (vs + pending)[i].series == series && (vs + pending)[i].number == n {
      var j := if i < |vs| then i else i - |vs| + |vs'|;
      assert (vs' + pending)[j] == (vs + pending)[i];
    }
  }

  /** Nor does a step of its own, under the lock. */
  lemma {:induction false} OwnStaysInTime(s: Tables, e: Event, L: int)
    requires e.w < |s.writers| && Held(s.lock, L) && !Late(s, e.w, L)
    ensures e.w < |Next(s, e).writers| && !Late(Next(s, e), e.w, L)
  {
    var t, t' := s.writers[e.w], Next(s, e).writers[e.w];
    NextAppends(s, e);
    if e.InsertVoucher? && t.progress.HasNumber? && t' != FRESH && t' != t {
      forall i | 0 <= i < |t'.pending| && t'.pending[i].date <= L ensures HoldsDated(t, L) {
        assert i < |t.pending| ==> t'.pending[i] == t.pending[i];
      }
    }
  }

  lemma {:induction false} InTimeStep(s: Tables, e: Event, L: int)
    requires NoneLate(s, L) && Held(s.lock, L) && Held(Next(s, e).lock, L)
    ensures NoneLate(Next(s, e), L)
    ensures forall v :: v in Since(s, Next(s, e)) ==> v.date > L
  {
    NextAppends(s, e);
    forall w | 0 <= w < |s.writers| ensures !Late(Next(s, e), w, L) {
      assert !Late(s, w, L);
      if w == e.w {
        OwnStaysInTime(s, e, L);
      } else {
        OtherStaysInTime(s, e, w, L);
      }
    }
    if e.Commit? && e.w < |s.writers| && s.writers[e.w].progress.Idle? {
      assert !Late(s, e.w, L) && CanLand(s, e.w, L);
    }
  }

  lemma {:induction false} InTimeRun(s: Tables, events: seq<Event>, L: int)
    requires NoneLate(s, L) && StaysLocked(s, events, L)
    ensures s.vouchers <= Run(s, events).vouchers && forall v :: v in Since(s, Run(s, events)) ==> v.date > L
    decreases |events|
  {
    if events != [] {
      var s1 := Next(s, events[0]);
      NextAppends(s, events[0]);
      InTimeStep(s, events[0], L);
      InTimeRun(s1, events[1..], L);
      assert Since(s, Run(s, events)) == Since(s, s1) + Since(s1, Run(s1, events[1..]));
    }
  }

  // ---- What is late can be committed ----

  lemma {:induction false} RunThen(s: Tables, first: seq<Event>, rest: seq<Event>, L: int)
    requires StaysLocked(s, first, L) && StaysLocked(Run(s, first), rest, L)
    ensures Run(s, first + rest) == Run(Run(s, first), rest) && StaysLocked(s, first + rest, L)
    decreases |first|
  {
    if first == [] {
      assert first + rest == rest;
    } else {
      assert (first + rest)[0] == first[0] && (first + rest)[1..] == first[1..] + rest;
      RunThen(Next(s, first[0]), first[1..], rest, L);
    }
  }

  lemma {:induction false} RunOne(s: Tables, e: Event, L: int)
    requires Held(s.lock, L) && Held(Next(s, e).lock, L)
    ensures Run(s, [e]) == Next(s, e) && StaysLocked(s, [e], L)
  {
    assert [e][1..] == [];
    assert Run(Next(s, e), []) == Next(s, e) && StaysLocked(Next(s, e), [], L);
  }

  /** One more event after a run. */
  lemma {:induction false} RunSnoc(s: Tables, events: seq<Event>, e: Event, L: int)
    requires StaysLocked(s, events, L) && Held(Run(s, events).lock, L) && Held(Next(Run(s, events), e).lock, L)
    ensures Run(s, events + [e]) == Next(Run(s, events), e) && StaysLocked(s, events + [e], L)
  {
    RunOne(Run(s, events), e, L);
    RunThen(s, events, [e], L);
  }

  /** Everyone before n but w has given up. */
  function GivenUp(s: Tables, w: nat, n: nat): Tables {
    s.(writers := seq(|s.writers|, v requires 0 <= v < |s.writers| => if v < n && v != w then FRESH else s.writers[v]))
  }

  lemma {:induction false} OthersGiveUp(s: Tables, w: nat, n: nat, L: int) returns (events: seq<Event>)
    requires Held(s.lock, L) && n <= |s.writers|
    ensures StaysLocked(s, events, L) && Run(s, events) == GivenUp(s, w, n)
  {
    if n == 0 {
      events := [];
      assert GivenUp(s, w, 0).writers == s.writers;
    } else {
      events := OthersGiveUp(s, w, n - 1, L);
      if n - 1 == w {
        assert GivenUp(s, w, n).writers == GivenUp(s, w, n - 1).writers;
      } else {
        RunSnoc(s, events, Abort(n - 1), L);
        assert Next(GivenUp(s, w, n - 1), Abort(n - 1)).writers == GivenUp(s, w, n).writers;
        events := events + [Abort(n - 1)];
      }
    }
  }

  /** w is alone: nobody else has anything under way. */
  ghost predicate Alone(s: Tables, w: nat) {
    w < |s.writers| && forall v :: 0 <= v < |s.writers| && v != w ==> s.writers[v] == FRESH
  }

  /** Another transaction adds the accounts of these lines and commits them. */
  lemma {:induction false} AccountsAdded(s: Tables, v: nat, lines: seq<Line>, L: int)
    returns (events: seq<Event>, added: set<string>)
    requires Held(s.lock, L) && v < |s.writers| && s.writers[v] == FRESH
    ensures StaysLocked(s, events, L) && Run(s, events) == Set(s, v, FRESH.(accounts := added))
    ensures forall l :: l in lines ==> l.account in added
  {
    if lines == [] {
      events, added := [], {};
      assert Set(s, v, FRESH.(accounts := {})) == s;
    } else {
      var n := |lines| - 1;
      events, added := AccountsAdded(s, v, lines[..n], L);
      RunSnoc(s, events, AddAccount(v, lines[n].account), L);
      events := events + [AddAccount(v, lines[n].account)];
      added := added + {lines[n].account};
      assert Run(s, events) == Set(s, v, FRESH.(accounts := added));
      assert forall l :: l in lines ==> l in lines[..n] || l == lines[n];
    }
  }

  /** What w holds and what it posts, alone and able to commit. */
  ghost predicate Ready(s: Tables, w: nat, L: int) {
    Sound(s) && Alone(s, w) && Held(s.lock, L) && CanLand(s, w, L) && HoldsDated(s.writers[w], L)
  }

  /** What w lacks in the chart, another transaction adds. */
  lemma {:induction false} AccountsReady(s: Tables, w: nat, L: int) returns (events: seq<Event>)
    requires Ready(s, w, L) && s.writers[w].progress.NotLocked?
    ensures StaysLocked(s, events, L)
    ensures var s' := Run(s, events);
            && s'.vouchers == s.vouchers && s'.lock == s.lock && Alone(s', w) && |s'.writers| == |s.writers|
            && s'.writers[w] == s.writers[w] && FirstUnknownIn(s', w).None?
  {
    if FirstUnknownIn(s, w).None? {
      events := [];
    } else {
      var v, lines := if w == 0 then 1 else 0, s.writers[w].progress.entry.lines;
      var added;
      events, added := AccountsAdded(s, v, lines, L);
      RunSnoc(s, events, Commit(v), L);
      events := events + [Commit(v)];
      var s' := Run(s, events);
      assert s'.accounts == s.accounts + added && s'.vouchers == s.vouchers + [];
      Books.AllKnown(lines, Chart(s', w));
    }
  }

  lemma {:induction false} ChartReady(s: Tables, w: nat, L: int) returns (events: seq<Event>)
    requires Ready(s, w, L) && s.writers[w].progress.NotLocked?
    ensures StaysLocked(s, events, L) && Run(s, events).vouchers == s.vouchers
    ensures Ready(Run(s, events), w, L) && Run(s, events).writers[w].progress.Checked?
  {
    events := AccountsReady(s, w, L);
    var s1 := Run(s, events);
    InterleavingsKeep(s, events);
    InterleavingsKeep(s1, [ReadChart(w)]);
    RunOne(s1, ReadChart(w), L);
    RunSnoc(s, events, ReadChart(w), L);
    events := events + [ReadChart(w)];
  }

  lemma {:induction false} NumberReady(s: Tables, w: nat, L: int)
    requires Ready(s, w, L) && s.writers[w].progress.Checked?
    ensures StaysLocked(s, [ReadNumber(w)], L) && Run(s, [ReadNumber(w)]).vouchers == s.vouchers
    ensures Ready(Run(s, [ReadNumber(w)]), w, L) && Run(s, [ReadNumber(w)]).writers[w].progress.HasNumber?
  {
    var e, vs := s.writers[w].progress.entry, Visible(s, w);
    RunOne(s, ReadNumber(w), L);
    InterleavingsKeep(s, [ReadNumber(w)]);
    assert WriterSound(s, w);
    Books.LastIsCount(vs, e.series);
    NumbersAreExactly(vs, e.series, Books.LastNumber(vs, e.series) + 1);
    assert Visible(Next(s, ReadNumber(w)), w) == vs;
  }

  lemma {:induction false} InsertReady(s: Tables, w: nat, L: int)
    requires Ready(s, w, L) && s.writers[w].progress.HasNumber?
    ensures StaysLocked(s, [InsertVoucher(w)], L) && Run(s, [InsertVoucher(w)]).vouchers == s.vouchers
    ensures Ready(Run(s, [InsertVoucher(w)]), w, L) && Run(s, [InsertVoucher(w)]).writers[w].progress.Idle?
  {
    var t, p := s.writers[w], s.writers[w].progress;
    RunOne(s, InsertVoucher(w), L);
    InterleavingsKeep(s, [InsertVoucher(w)]);
    assert !TakenByOther(s, w, p.entry.series, p.number);
    var t' := Next(s, InsertVoucher(w)).writers[w];
    assert t'.pending[..|t.pending|] == t.pending;
    if i :| 0 <= i < |t.pending| && t.pending[i].date <= L {
      assert t'.pending[i].date <= L;
    } else {
      assert t'.pending[|t.pending|].date <= L;
    }
  }

  lemma {:induction false} CommitReady(s: Tables, w: nat, L: int) returns (v: Voucher)
    requires Ready(s, w, L) && s.writers[w].progress.Idle?
    ensures StaysLocked(s, [Commit(w)], L) && v in Since(s, Run(s, [Commit(w)])) && v.date <= L
  {
    RunOne(s, Commit(w), L);
    NextAppends(s, Commit(w));
    var i :| 0 <= i < |s.writers[w].pending| && s.writers[w].pending[i].date <= L;
    v := s.writers[w].pending[i];
  }

  function StepsLeft(p: Progress): nat {
    match p case NotLocked(_) => 3 case Checked(_) => 2 case HasNumber(_, _) => 1 case Idle => 0
  }

  lemma {:induction false} ReadyCommits(s: Tables, w: nat, L: int) returns (events: seq<Event>, v: Voucher)
    requires Ready(s, w, L)
    ensures StaysLocked(s, events, L) && v in Since(s, Run(s, events)) && v.date <= L
    decreases StepsLeft(s.writers[w].progress)
  {
    if s.writers[w].progress.Idle? {
      v := CommitReady(s, w, L);
      events := [Commit(w)];
    } else {
      var first: seq<Event>;
      if s.writers[w].progress.NotLocked? {
        first := ChartReady(s, w, L);
      } else if s.writers[w].progress.Checked? {
        NumberReady(s, w, L);
        first := [ReadNumber(w)];
      } else {
        InsertReady(s, w, L);
        first := [InsertVoucher(w)];
      }
      var rest;
      rest, v := ReadyCommits(Run(s, first), w, L);
      RunThen(s, first, rest, L);
      events := first + rest;
    }
  }

  lemma {:induction false} LateCommits(s: Tables, w: nat, L: int) returns (events: seq<Event>, v: Voucher)
    requires Sound(s) && Held(s.lock, L) && w < |s.writers| && Late(s, w, L)
    ensures StaysLocked(s, events, L) && v in Since(s, Run(s, events)) && v.date <= L
  {
    var alone := OthersGiveUp(s, w, |s.writers|, L);
    var s1 := Run(s, alone);
    InterleavingsKeep(s, alone);
    assert s1.writers[w] == s.writers[w] && Visible(s1, w) == Visible(s, w) && Chart(s1, w) == Chart(s, w);
    var rest;
    rest, v := ReadyCommits(s1, w, L);
    RunThen(s, alone, rest, L);
    events := alone + rest;
  }

  /** In every reachable state under a lock at or after L: no voucher dated by L is
      committed while the lock stays there, in any interleaving, exactly when no
      transaction has one under way that it can still commit. */
  lemma {:induction false} LockHoldsIff(
    accounts: set<string>, lock: Option<int>, writers: nat, before: seq<Event>, L: int)
    requires Held(Run(Start(accounts, lock, writers), before).lock, L)
    ensures var s := Run(Start(accounts, lock, writers), before);
            (forall events, v :: StaysLocked(s, events, L) && v in Since(s, Run(s, events)) ==> v.date > L)
            <==> NoneLate(s, L)
  {
    var s := Run(Start(accounts, lock, writers), before);
    StartsSound(accounts, lock, writers);
    InterleavingsKeep(Start(accounts, lock, writers), before);
    if NoneLate(s, L) {
      forall events, v | StaysLocked(s, events, L) && v in Since(s, Run(s, events)) ensures v.date > L {
        InTimeRun(s, events, L);
      }
    } else {
      var w :| 0 <= w < |s.writers| && Late(s, w, L);
      var events, v := LateCommits(s, w, L);
    }
  }

  /** And then no row of any trial balance ending by L changes. */
  lemma {:induction false} LockFreezesReportsInTime(s: Tables, events: seq<Event>, p: Reports.Period, L: int)
    requires NoneLate(s, L) && StaysLocked(s, events, L) && Runs.EndsBy(p, L)
    ensures Reports.TrialBalance(Run(s, events).vouchers, p) == Reports.TrialBalance(s.vouchers, p)
  {
    InTimeRun(s, events, L);
    var more := Since(s, Run(s, events));
    assert Run(s, events).vouchers == s.vouchers + more;
    forall i | 0 <= i < |more| ensures more[i].date > L {
      assert more[i] in more;
    }
    Runs.LateVouchersUncovered(s.vouchers, more, p, L);
  }

  /** A posting reads that there is no lock, another transaction locks through L and
      commits, and the posting goes on. */
  function Overtaking(e: Runs.Entry, L: int): seq<Event> {
    [ReadLock(0, e), SetLock(1, Some(L)), Commit(1)]
  }

  /** So every postable entry dated by L can be committed after a lock through L. */
  lemma {:induction false} PostingOvertakesLock(accounts: set<string>, e: Runs.Entry, L: int)
    returns (events: seq<Event>, v: Voucher)
    requires Postable(e.lines) && e.date <= L
    ensures var s := Run(Start(accounts, None, 2), Overtaking(e, L));
            && s.lock == Some(L) && s.vouchers == [] && StaysLocked(s, events, L)
            && v in Run(s, events).vouchers && v.date <= L
  {
    var s0 := Start(accounts, None, 2);
    var es := Overtaking(e, L);
    VerdictAccepts(e.lines);
    var s1 := Next(s0, es[0]);
    var s2 := Next(s1, es[1]);
    var s3 := Next(s2, es[2]);
    assert es[1..] == [es[1], es[2]] && es[1..][1..] == [es[2]] && es[1..][1..][1..] == [];
    assert Run(s0, es) == Run(s1, es[1..]) == Run(s2, es[1..][1..]) == Run(s3, []) == s3;
    assert s1.writers[0].progress == NotLocked(e) && s2.writers[1].lock == Some(Some(L));
    StartsSound(accounts, None, 2);
    InterleavingsKeep(s0, es);
    assert Late(s3, 0, L);
    events, v := LateCommits(s3, 0, L);
  }
}
