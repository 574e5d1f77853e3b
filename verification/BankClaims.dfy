/** Booking one imported bank transaction from several places at once: the status
    guard on its row, over every interleaving and every crash. */
module BankClaims {
  import opened Prelude

  datatype Status = Unmatched | Booking | Booked | Ignored

  /** How far a caller has come. Invoice bookers read, claim, pay, then mark or
      release; account bookers read, then post and mark in one transaction, which
      holds the row lock until it ends; ignorers make one guarded update. */
  datatype Phase =
    | InvoiceNew | InvoiceSeen | Holding | MustRelease | HasPaid
    | AccountNew | AccountSeen | Posting
    | IgnoreNew
    | Done

  datatype Caller = Caller(phase: Phase, alive: bool)

  /** The row, who holds its lock, the callers, and what has been committed. */
  datatype State = State(status: Status, lock: Option<nat>, callers: seq<Caller>, payments: nat, vouchers: nat)

  /** The caller's next statement, with the outcome of its posting; or its death. */
  datatype Event = Advance(c: nat, succeeds: bool) | Crash(c: nat)

  predicate CanMark(st: Status) {
    st == Unmatched || st == Booking
  }

  function Move(s: State, c: nat, phase: Phase): State
    requires c < |s.callers|
  {
    s.(callers := s.callers[c := s.callers[c].(phase := phase)])
  }

  function Next(s: State, e: Event): State {
    if e.c >= |s.callers| || !s.callers[e.c].alive then s
    else match e
      case Crash(c) =>
        // The database rolls back an open transaction; a committed claim stays.
        var phase := if s.callers[c].phase == Posting then Done else s.callers[c].phase;
        s.(callers := s.callers[c := Caller(phase, false)], lock := if s.lock == Some(c) then None else s.lock)
      case Advance(c, succeeds) => Statement(s, c, succeeds)
  }

  /** An update of a locked row waits. */
  function Statement(s: State, c: nat, succeeds: bool): State
    requires c < |s.callers|
  {
    match s.callers[c].phase
    case InvoiceNew => Move(s, c, if s.status == Unmatched then InvoiceSeen else Done)
    case InvoiceSeen =>
      if s.lock.Some? then s
      else if s.status == Unmatched then Move(s, c, Holding).(status := Booking)
      else Move(s, c, Done)
    case Holding =>
      if succeeds then Move(s, c, HasPaid).(payments := s.payments + 1) else Move(s, c, MustRelease)
    case MustRelease =>
      if s.lock.Some? then s else Move(s, c, Done).(status := if s.status == Booking then Unmatched else s.status)
    case HasPaid =>
      if s.lock.Some? then s else Move(s, c, Done).(status := if CanMark(s.status) then Booked else s.status)
    case AccountNew => Move(s, c, if s.status == Unmatched then AccountSeen else Done)
    case AccountSeen =>
      if !succeeds then Move(s, c, Done)
      else if s.lock.Some? then s
      else if CanMark(s.status) then Move(s, c, Posting).(lock := Some(c))
      else Move(s, c, Done)
    case Posting =>
      if succeeds then Move(s, c, Done).(lock := None, status := Booked, vouchers := s.vouchers + 1)
      else Move(s, c, Done).(lock := None)
    case IgnoreNew =>
      if s.lock.Some? then s else Move(s, c, Done).(status := if s.status == Unmatched then Ignored else s.status)
    case Done => s
  }

  /** A caller that dies holds no row lock and posts nothing more; a claim that it has
      committed stays. */
  lemma {:induction false} CrashEnds(s: State, c: nat, e: Event)
    requires c < |s.callers| && s.callers[c].alive && e.c == c
    ensures var s' := Next(s, Crash(c));
            && Next(s', e) == s' && s'.lock != Some(c) && (s.lock != Some(c) ==> s'.lock == s.lock)
            && s'.status == s.status && s'.payments == s.payments && s'.vouchers == s.vouchers
            && (forall i :: 0 <= i < |s.callers| && i != c ==> s'.callers[i] == s.callers[i])
  {
  }

  function Run(s: State, events: seq<Event>): State
    decreases |events|
  {
    if events == [] then s else Run(Next(s, events[0]), events[1..])
  }

  // ---- What every interleaving keeps ----

  /** Caller c took the claim and has not given it up; it may have died with it. */
  predicate Owns(s: State, c: nat) {
    c < |s.callers| && (s.callers[c].phase == Holding || s.callers[c].phase == MustRelease
                        || s.callers[c].phase == HasPaid)
  }

  ghost predicate OneOwner(s: State) {
    forall b: nat, c: nat :: Owns(s, b) && Owns(s, c) ==> b == c
  }

  ghost predicate LockSound(s: State) {
    && (forall c :: 0 <= c < |s.callers| && s.callers[c].phase == Posting ==> s.lock == Some(c))
    && (s.lock.Some? ==> s.lock.value < |s.callers| && s.callers[s.lock.value].phase == Posting && CanMark(s.status))
  }

  /** Never two payments, never two vouchers; nothing posted while unmatched or
      ignored; 'booking' means one owner. */
  ghost predicate Sound(s: State) {
    && LockSound(s) && OneOwner(s)
    && s.payments <= 1 && s.vouchers <= 1
    && (s.status == Unmatched || s.status == Ignored ==> s.payments == 0 && s.vouchers == 0)
    && (s.status == Booking ==> s.vouchers == 0 && exists c: nat :: Owns(s, c))
    && (forall c: nat :: Owns(s, c) ==>
          && (s.status == Booking || s.status == Booked)
          && (s.payments == 1 <==> s.callers[c].phase == HasPaid))
  }

  lemma {:induction false} OwnersElsewhere(s: State, c: nat, s': State)
    requires c < |s.callers| == |s'.callers|
    requires forall b: nat :: 0 <= b < |s.callers| && b != c ==> s'.callers[b] == s.callers[b]
    ensures forall b: nat :: b != c ==> (Owns(s', b) <==> Owns(s, b))
  {
  }

  lemma {:induction false} ReadKeeps(s: State, c: nat, succeeds: bool)
    requires Sound(s) && c < |s.callers|
    requires s.callers[c].phase == InvoiceNew || s.callers[c].phase == AccountNew || s.callers[c].phase == IgnoreNew
    ensures Sound(Statement(s, c, succeeds))
  {
    var s' := Statement(s, c, succeeds);
    OwnersElsewhere(s, c, s');
    if s.status == Booking {
      var b :| Owns(s, b);
      assert Owns(s', b);
    }
  }

  lemma {:induction false} ClaimKeeps(s: State, c: nat, succeeds: bool)
    requires Sound(s) && c < |s.callers| && s.callers[c].phase == InvoiceSeen
    ensures Sound(Statement(s, c, succeeds))
  {
    var s' := Statement(s, c, succeeds);
    OwnersElsewhere(s, c, s');
    if s.lock.None? && s.status == Unmatched {
      assert Owns(s', c);
    } else if s.status == Booking {
      var b :| Owns(s, b);
      assert Owns(s', b);
    }
  }

  lemma {:induction false} OwnerKeeps(s: State, c: nat, succeeds: bool)
    requires Sound(s) && Owns(s, c)
    ensures Sound(Statement(s, c, succeeds))
  {
    var s' := Statement(s, c, succeeds);
    OwnersElsewhere(s, c, s');
    assert s.callers[c].phase == Holding ==> Owns(s', c);
    assert s' == s ==> Sound(s');
  }

  lemma {:induction false} AccountKeeps(s: State, c: nat, succeeds: bool)
    requires Sound(s) && c < |s.callers| && (s.callers[c].phase == AccountSeen || s.callers[c].phase == Posting)
    ensures Sound(Statement(s, c, succeeds))
  {
    var s' := Statement(s, c, succeeds);
    OwnersElsewhere(s, c, s');
    if s.status == Booking {
      var b :| Owns(s, b);
      assert Owns(s', b);
    }
  }

  lemma {:induction false} CrashKeeps(s: State, c: nat)
    requires Sound(s)
    ensures Sound(Next(s, Crash(c)))
  {
    var s' := Next(s, Crash(c));
    if s' != s {
      OwnersElsewhere(s, c, s');
      assert Owns(s', c) <==> Owns(s, c);
      if s.status == Booking {
        var b :| Owns(s, b);
        assert Owns(s', b);
      }
    }
  }

  lemma {:induction false} StepKeeps(s: State, e: Event)
    requires Sound(s)
    ensures Sound(Next(s, e))
  {
    match e {
      case Crash(c) => CrashKeeps(s, c);
      case Advance(c, succeeds) =>
        if c < |s.callers| && s.callers[c].alive {
          match s.callers[c].phase {
            case InvoiceNew | AccountNew | IgnoreNew => ReadKeeps(s, c, succeeds);
            case InvoiceSeen => ClaimKeeps(s, c, succeeds);
            case Holding | MustRelease | HasPaid => OwnerKeeps(s, c, succeeds);
            case AccountSeen | Posting => AccountKeeps(s, c, succeeds);
            case Done =>
          }
        }
    }
  }

  // ---- From an unmatched row ----

  predicate IsNew(p: Phase) {
    p == InvoiceNew || p == AccountNew || p == IgnoreNew
  }

  predicate NewCallers(callers: seq<Caller>) {
    forall c :: 0 <= c < |callers| ==> callers[c].alive && IsNew(callers[c].phase)
  }

  function Open(callers: seq<Caller>): State {
    State(Unmatched, None, callers, 0, 0)
  }

  lemma {:induction false} RunKeeps(s: State, events: seq<Event>)
    requires Sound(s)
    ensures Sound(Run(s, events))
    decreases |events|
  {
    if events != [] {
      StepKeeps(s, events[0]);
      RunKeeps(Next(s, events[0]), events[1..]);
    }
  }

  /** Any number of callers of any kind, interleaved and crashing anywhere: at most
      one payment and at most one account voucher are ever committed, and a row in
      'booking' has exactly one owner. */
  lemma {:induction false} ClaimsAreExclusive(callers: seq<Caller>, events: seq<Event>)
    requires NewCallers(callers)
    ensures var s := Run(Open(callers), events);
            && s.payments <= 1 && s.vouchers <= 1
            && (s.status == Booking ==> exists c: nat :: Owns(s, c) && forall b: nat :: Owns(s, b) ==> b == c)
            && (s.status == Unmatched || s.status == Ignored ==> s.payments == 0 && s.vouchers == 0)
  {
    assert forall c: nat :: !Owns(Open(callers), c);
    RunKeeps(Open(callers), events);
    var s := Run(Open(callers), events);
    if s.status == Booking {
      var c :| Owns(s, c);
      assert forall b: nat :: Owns(s, b) ==> b == c;
    }
  }

  // ---- Callers of one kind only ----

  predicate BooksAccounts(p: Phase) {
    p == AccountNew || p == AccountSeen || p == Posting
  }

  predicate BooksInvoices(p: Phase) {
    p == InvoiceNew || p == InvoiceSeen || p == Holding || p == MustRelease || p == HasPaid
  }

  /** No caller books accounts; a row is booked only with its payment. */
  ghost predicate NoAccounts(s: State) {
    && s.vouchers == 0 && (s.status == Booked ==> s.payments == 1)
    && (forall c :: 0 <= c < |s.callers| ==> !BooksAccounts(s.callers[c].phase))
    && (s.status == Booked ==> forall c: nat :: !Owns(s, c))
  }

  /** No caller books invoices; a row is booked exactly when its voucher is. */
  ghost predicate NoInvoices(s: State) {
    && s.payments == 0 && (s.status == Booked <==> s.vouchers == 1)
    && forall c :: 0 <= c < |s.callers| ==> !BooksInvoices(s.callers[c].phase)
  }

  lemma {:induction false} NoAccountsStep(s: State, e: Event)
    requires Sound(s) && NoAccounts(s)
    ensures NoAccounts(Next(s, e))
  {
    var s' := Next(s, e);
    if s' != s {
      OwnersElsewhere(s, e.c, s');
      assert Owns(s, e.c) ==> forall b: nat :: Owns(s, b) ==> b == e.c;
    }
  }

  lemma {:induction false} OneKindRun(s: State, events: seq<Event>)
    requires Sound(s)
    ensures NoAccounts(s) ==> NoAccounts(Run(s, events))
    ensures NoInvoices(s) ==> NoInvoices(Run(s, events))
    decreases |events|
  {
    if events != [] {
      StepKeeps(s, events[0]);
      if NoAccounts(s) {
        NoAccountsStep(s, events[0]);
      }
      OneKindRun(Next(s, events[0]), events[1..]);
    }
  }

  /** When all booking callers are of one kind the transaction is booked at most
      once in all, and 'booked' always has its posting. */
  lemma {:induction false} OneKindBooksOnce(callers: seq<Caller>, events: seq<Event>)
    requires NewCallers(callers)
    requires (forall c :: 0 <= c < |callers| ==> callers[c].phase != AccountNew)
             || (forall c :: 0 <= c < |callers| ==> callers[c].phase != InvoiceNew)
    ensures var s := Run(Open(callers), events);
            s.payments + s.vouchers <= 1 && (s.status == Booked ==> s.payments + s.vouchers == 1)
  {
    assert forall c: nat :: !Owns(Open(callers), c);
    RunKeeps(Open(callers), events);
    OneKindRun(Open(callers), events);
  }

  /** Mixed callers book twice: marking accepts 'booking', so j's voucher is committed
      under i's claim, and i then pays. */
  function MixedRun(i: nat, j: nat): seq<Event> {
    [Advance(i, true), Advance(j, true), Advance(i, true), Advance(j, true), Advance(j, true), Advance(i, true)]
  }

  lemma {:induction false} SixSteps(s: State, a: Event, b: Event, c: Event, d: Event, e: Event, f: Event)
    ensures Run(s, [a, b, c, d, e, f]) == Next(Next(Next(Next(Next(Next(s, a), b), c), d), e), f)
  {
    ThreeSteps(s, a, b, c, [d, e, f]);
    ThreeSteps(Next(Next(Next(s, a), b), c), d, e, f, []);
    assert [a, b, c] + [d, e, f] == [a, b, c, d, e, f] && [d, e, f] + [] == [d, e, f];
  }

  lemma {:induction false} ThreeSteps(s: State, a: Event, b: Event, c: Event, rest: seq<Event>)
    ensures Run(s, [a, b, c] + rest) == Run(Next(Next(Next(s, a), b), c), rest)
  {
    var es := [a, b, c] + rest;
    assert es[1..] == [b, c] + rest && es[1..][1..] == [c] + rest && es[1..][1..][1..] == rest;
    assert Run(s, es) == Run(Next(s, a), es[1..]);
    assert Run(Next(s, a), es[1..]) == Run(Next(Next(s, a), b), es[1..][1..]);
  }

  lemma {:induction false} MixedRunBooksTwice(callers: seq<Caller>, i: nat, j: nat)
    requires NewCallers(callers) && i < |callers| && j < |callers|
    requires callers[i].phase == InvoiceNew && callers[j].phase == AccountNew
    ensures Run(Open(callers), MixedRun(i, j)).payments == 1 && Run(Open(callers), MixedRun(i, j)).vouchers == 1
  {
    var s0 := Open(callers);
    var a, b := Advance(i, true), Advance(j, true);
    SixSteps(s0, a, b, a, b, b, a);
    var s2 := Next(Next(s0, a), b);
    assert s2.status == Unmatched && s2.callers[i].phase == InvoiceSeen && s2.callers[j].phase == AccountSeen;
    var s4 := Next(Next(s2, a), b);
    assert s4.status == Booking && s4.callers[i].phase == Holding && s4.callers[j].phase == Posting;
  }

  /** No interleaving books the transaction twice exactly when no invoice booker and
      account booker meet on it. */
  lemma {:induction false} BooksOnceIff(callers: seq<Caller>)
    requires NewCallers(callers)
    ensures (forall events :: var s := Run(Open(callers), events); s.payments + s.vouchers <= 1) <==>
            !((exists i :: 0 <= i < |callers| && callers[i].phase == InvoiceNew)
                   && (exists j :: 0 <= j < |callers| && callers[j].phase == AccountNew))
  {
    if i, j :|
      && 0 <= i < |callers| && callers[i].phase == InvoiceNew
      && 0 <= j < |callers| && callers[j].phase == AccountNew
    {
      MixedRunBooksTwice(callers, i, j);
      var s := Run(Open(callers), MixedRun(i, j));
      assert s.payments + s.vouchers == 2;
    } else {
      forall events ensures var s := Run(Open(callers), events); s.payments + s.vouchers <= 1 {
        OneKindBooksOnce(callers, events);
      }
    }
  }
}
