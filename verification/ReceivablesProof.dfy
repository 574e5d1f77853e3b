/** Over every run of the customer ledger, each invoice's own vouchers agree with
    what the invoice row says has been paid. */
module ReceivablesProof {
  import opened Prelude
  import opened Ledger
  import opened Books
  import Aggregates
  import opened Invoicing
  import opened Receivables
  import Reports
  import Runs

  // ---- Own vouchers ----

  lemma {:induction false} OwnNetOthers(vs: seq<Voucher>, owner: seq<Option<nat>>, k: nat, i: nat, w: Accounts)
    requires |vs| == |owner| && k <= |vs| && forall j :: k <= j < |vs| ==> owner[j] != Some(i)
    ensures OwnNet(vs, owner, i, w) == OwnNet(vs[..k], owner[..k], i, w)
    decreases |vs|
  {
    if k == |vs| {
      assert vs[..k] == vs && owner[..k] == owner;
    } else {
      var n := |vs| - 1;
      OwnNetOthers(vs[..n], owner[..n], k, i, w);
      assert vs[..n][..k] == vs[..k] && owner[..n][..k] == owner[..k];
    }
  }

  lemma {:induction false} NoneOwned(d: Desk, i: nat, w: Accounts)
    requires Kept(d) && i >= |d.invoices|
    ensures OwnNet(d.book.vouchers, d.owner, i, w) == 0
  {
    OwnNetOthers(d.book.vouchers, d.owner, 0, i, w);
  }

  // ---- A payment's effect ----

  lemma {:induction false} ForeignEffect(gross: int, account: string, amount: int, x: string)
    requires Tracked(x) && account != x && 0 < amount <= MAX_INT64
    requires Postable(ForeignPayment(0, gross, account, amount).value.lines)
    ensures Fits(gross) ==>
              gross > 0 && Soundly(false, true, gross, amount)
              && NetOf(ForeignPayment(0, gross, account, amount).value.lines, One(x))
                   == PaymentsAt(false, true, gross, amount, x)
  {
    var diff := Minus64(amount, gross);
    var ls := ForeignPayment(0, gross, account, amount).value.lines;
    assert OneSided(ls[1]);
    if diff == 0 {
      assert ls == [ls[0], ls[1]];
      NetOfTwo(ls[0], ls[1], One(x));
    } else {
      assert ls == [ls[0], ls[1], ls[2]];
      NetOfThree(ls[0], ls[1], ls[2], One(x));
    }
  }

  lemma {:induction false} SekEffect(paid: int, gross: int, account: string, amount: int, x: string)
    requires Tracked(x) && account != x && 0 < amount && 0 <= paid && paid + amount <= MAX_INT64
    requires SekPayment(paid, gross, account, amount).Ok?
    requires Postable(SekPayment(paid, gross, account, amount).value.lines)
    ensures var pay := SekPayment(paid, gross, account, amount).value;
            && Soundly(true, pay.settles, gross, paid + amount)
            && NetOf(pay.lines, One(x))
                 == PaymentsAt(true, pay.settles, gross, paid + amount, x) - PaymentsAt(true, false, gross, paid, x)
  {
    var residual := Minus64(gross, Plus64(paid, amount));
    var pay := SekPayment(paid, gross, account, amount).value;
    var ls := pay.lines;
    assert residual == Minus64(gross, paid + amount);
    if |ls| == 2 {
      assert ls == [ls[0], ls[1]];
      NetOfTwo(ls[0], ls[1], One(x));
    } else {
      assert OneSided(ls[2]);
      assert residual != MIN_INT64;
      RoundedEffect(account, amount, residual, x);
    }
  }

  lemma {:induction false} RoundedEffect(account: string, amount: int, residual: int, x: string)
    requires account != x && Fits(residual) && residual != MIN_INT64
    ensures NetOf([Debit(account, amount), Credit(RECEIVABLES, amount)] + RoundingLines(residual), One(x))
         == if x == RECEIVABLES then -amount - residual else if x == ROUNDING then residual else 0
  {
    var ls := [Debit(account, amount), Credit(RECEIVABLES, amount)] + RoundingLines(residual);
    assert ls == [ls[0], ls[1], ls[2], ls[3]];
    NetOfFour(ls[0], ls[1], ls[2], ls[3], One(x));
  }

  /** An accepted payment leaves the row sound, and moves account x by exactly what the
      row now says more. */
  lemma {:induction false} PaymentEffect(
    sek: bool, paid: int, gross: int, account: string, amount: int, after: int, x: string)
    requires Tracked(x) && account != x && 0 < amount && 0 <= paid && after == paid + amount <= MAX_INT64 && Fits(gross)
    requires PaymentOf(sek, paid, gross, account, amount).Ok?
    requires Postable(PaymentOf(sek, paid, gross, account, amount).value.lines)
    ensures var pay := PaymentOf(sek, paid, gross, account, amount).value;
            && Soundly(sek, pay.settles, gross, after)
            && NetOf(pay.lines, One(x))
                 == PaymentsAt(sek, pay.settles, gross, after, x) - PaymentsAt(sek, false, gross, paid, x)
  {
    if sek {
      SekEffect(paid, gross, account, amount, x);
    } else {
      ForeignEffect(gross, account, amount, x);
    }
  }

  /** Whatever account it goes to, an accepted payment leaves the row sound. */
  lemma {:induction false} PaymentSound(sek: bool, paid: int, gross: int, account: string, amount: int, after: int)
    requires 0 < amount && 0 <= paid && after == paid + amount <= MAX_INT64 && Fits(gross)
    requires PaymentOf(sek, paid, gross, account, amount).Ok?
    requires Postable(PaymentOf(sek, paid, gross, account, amount).value.lines)
    ensures Soundly(sek, PaymentOf(sek, paid, gross, account, amount).value.settles, gross, after)
  {
    PaymentEffect(sek, paid, gross, account, amount, after, if account == RECEIVABLES then ROUNDING else RECEIVABLES);
  }

  // ---- Posting for an invoice ----

  lemma {:induction false} PostGrows(b: Book, series: string, date: int, text: string, lines: seq<Line>)
    returns (v: Voucher)
    requires WellKept(b) && Post(b, series, date, text, lines).Ok?
    ensures var b' := Post(b, series, date, text, lines).value;
            WellKept(b') && b'.vouchers == b.vouchers + [v] && v.lines == lines && Postable(lines)
  {
    PostKeepsBooks(b, series, date, text, lines);
    v := Post(b, series, date, text, lines).value.vouchers[|b.vouchers|];
  }

  /** One voucher of invoice id is appended; rows other than id are as before. */
  ghost predicate PostedFor(d: Desk, d': Desk, v: Voucher, id: nat) {
    && WellKept(d'.book) && d'.book.vouchers == d.book.vouchers + [v] && d'.owner == d.owner + [Some(id)]
    && |d'.invoices| == |d.invoices| && id < |d.invoices|
    && forall i :: 0 <= i < |d.invoices| && i != id ==> d'.invoices[i] == d.invoices[i]
  }

  lemma {:induction false} OtherKept(d: Desk, d': Desk, v: Voucher, id: nat, i: nat, x: string)
    requires |d.owner| == |d.book.vouchers| && PostedFor(d, d', v, id) && i < |d.invoices| && i != id
             && InvoiceKept(d, i)
    ensures InvoiceKept(d', i) && (ReconciledAt(d, i, x) ==> ReconciledAt(d', i, x))
  {
  }

  /** It suffices to look at the posting invoice. */
  lemma {:induction false} PostedKeeps(d: Desk, d': Desk, v: Voucher, id: nat, x: string)
    requires Kept(d) && PostedFor(d, d', v, id) && InvoiceKept(d', id)
    ensures Kept(d')
    ensures Reconciled(d, x) && ReconciledAt(d', id, x) ==> Reconciled(d', x)
  {
    assert OwnersExist(d'.owner, |d'.invoices|);
    forall i | 0 <= i < |d.invoices|
      ensures InvoiceKept(d', i) && (Reconciled(d, x) && ReconciledAt(d', id, x) ==> ReconciledAt(d', i, x))
    {
      if i != id {
        assert InvoiceKept(d, i);
        OtherKept(d, d', v, id, i, x);
      }
    }
  }

  // ---- Steps ----

  lemma {:induction false} CreateKeeps(d: Desk, doc: Document, credits: Option<nat>, x: string)
    requires Kept(d)
    ensures Kept(Create(d, doc, credits)) && (Reconciled(d, x) ==> Reconciled(Create(d, doc, credits), x))
  {
    var d' := Create(d, doc, credits);
    forall i | 0 <= i < |d'.invoices| ensures InvoiceKept(d', i) && (Reconciled(d, x) ==> ReconciledAt(d', i, x)) {
      if i < |d.invoices| {
        CreateKeepsOld(d, doc, credits, i, x);
      } else {
        NoneOwned(d, i, One(x));
      }
    }
  }

  lemma {:induction false} CreateKeepsOld(d: Desk, doc: Document, credits: Option<nat>, i: nat, x: string)
    requires |d.owner| == |d.book.vouchers| && i < |d.invoices| && InvoiceKept(d, i)
    ensures InvoiceKept(Create(d, doc, credits), i)
    ensures ReconciledAt(d, i, x) ==> ReconciledAt(Create(d, doc, credits), i, x)
  {
  }

  lemma {:induction false} EntryBooks(doc: Document)
    requires Postable(EntryLines(doc))
    ensures BooksReceivable(EntryLines(doc), Receivable(doc))
    ensures NetOf(EntryLines(doc), One(RECEIVABLES)) == Receivable(doc)
  {
    EntryBalances(doc);
    assert OneSided(EntryLines(doc)[0]);
  }

  lemma {:induction false} FinalizeKeeps(d: Desk, id: nat, date: int, text: string, x: string)
    requires Kept(d) && Finalize(d, id, date, text).Ok?
    ensures var d' := Finalize(d, id, date, text).value;
            Kept(d') && (Reconciled(d, x) ==> Reconciled(d', x))
  {
    var d', inv := Finalize(d, id, date, text).value, d.invoices[id];
    assert InvoiceKept(d, id);
    var v := PostGrows(d.book, "F", date, text, EntryLines(inv.doc));
    EntryBooks(inv.doc);
    assert PostedFor(d, d', v, id);
    FinalizedRowKept(d, d', v, id, x);
    PostedKeeps(d, d', v, id, x);
  }

  lemma {:induction false} FinalizedRowKept(d: Desk, d': Desk, v: Voucher, id: nat, x: string)
    requires |d.owner| == |d.book.vouchers| && PostedFor(d, d', v, id) && InvoiceKept(d, id)
    requires d.invoices[id].status == Draft && BooksReceivable(v.lines, Receivable(d.invoices[id].doc))
    requires d.invoices[id].credits.None? ==> NetOf(v.lines, One(RECEIVABLES)) == Receivable(d.invoices[id].doc)
    requires d'.invoices[id] == MarkFinalized(d.invoices[id], |d.book.vouchers|)
    ensures InvoiceKept(d', id) && (ReconciledAt(d, id, x) ==> ReconciledAt(d', id, x))
  {
    assert EntryOf(d', d'.invoices[id]) == v.lines && EntryOf(d, d.invoices[id]) == [];
  }

  lemma {:induction false} PayKeeps(d: Desk, id: nat, date: int, account: string, amount: int, text: string, x: string)
    requires Kept(d) && Pay(d, id, date, account, amount, text).Ok? && Tracked(x)
    ensures var d' := Pay(d, id, date, account, amount, text).value;
            Kept(d') && (account != x && Reconciled(d, x) ==> Reconciled(d', x))
  {
    var d', inv := Pay(d, id, date, account, amount, text).value, d.invoices[id];
    assert InvoiceKept(d, id);
    var pay := PaymentFor(inv, Gross(inv.doc), account, amount).value;
    var v := PostGrows(d.book, "B", date, text, pay.lines);
    assert PostedFor(d, d', v, id);
    PaidRowKept(d, d', v, id, account, amount);
    if account != x && ReconciledAt(d, id, x) {
      PaidRowAgrees(d, d', v, id, account, amount, x);
    }
    PostedKeeps(d, d', v, id, x);
  }

  /** The row after an accepted payment whose voucher is v. */
  ghost predicate TookPayment(d: Desk, d': Desk, v: Voucher, id: nat, account: string, amount: int) {
    && |d.owner| == |d.book.vouchers| && PostedFor(d, d', v, id)
    && var inv := d.invoices[id]; var pay := PaymentFor(inv, Gross(inv.doc), account, amount);
    && pay.Ok? && v.lines == pay.value.lines && Postable(v.lines) && Fits(inv.amountPaid + amount)
    && d'.invoices[id] == AfterPayment(inv, amount, pay.value.settles, |d.book.vouchers|)
  }

  /** One row, before and after. */
  lemma {:induction false} RowTakesPayment(inv: Invoice, account: string, amount: int, voucher: nat)
    requires !IsSettled(inv) && Fits(inv.amountPaid + amount)
    requires Soundly(IsSek(inv), false, Gross(inv.doc), inv.amountPaid)
    requires var pay := PaymentFor(inv, Gross(inv.doc), account, amount); pay.Ok? && Postable(pay.value.lines)
    ensures var settles := PaymentFor(inv, Gross(inv.doc), account, amount).value.settles;
            var inv' := AfterPayment(inv, amount, settles, voucher);
            && IsSettled(inv') == settles && inv'.doc == inv.doc && inv'.amountPaid == inv.amountPaid + amount
            && inv'.verification == inv.verification && inv'.credits == inv.credits
            && Soundly(IsSek(inv'), settles, Gross(inv'.doc), inv'.amountPaid)
  {
    var settles := PaymentFor(inv, Gross(inv.doc), account, amount).value.settles;
    var inv' := AfterPayment(inv, amount, settles, voucher);
    PaymentSound(IsSek(inv), inv.amountPaid, Gross(inv.doc), account, amount, inv'.amountPaid);
  }

  lemma {:induction false} RowMoves(inv: Invoice, account: string, amount: int, voucher: nat, x: string)
    requires !IsSettled(inv) && Fits(inv.amountPaid + amount) && 0 <= inv.amountPaid && Tracked(x) && account != x
    requires var pay := PaymentFor(inv, Gross(inv.doc), account, amount); pay.Ok? && Postable(pay.value.lines)
    ensures var pay := PaymentFor(inv, Gross(inv.doc), account, amount).value;
            NetOf(pay.lines, One(x))
              == PaymentsOn(AfterPayment(inv, amount, pay.settles, voucher), x) - PaymentsOn(inv, x)
  {
    var settles := PaymentFor(inv, Gross(inv.doc), account, amount).value.settles;
    var inv' := AfterPayment(inv, amount, settles, voucher);
    assert PaymentsOn(inv', x) == PaymentsAt(IsSek(inv), settles, Gross(inv.doc), inv'.amountPaid, x);
    assert PaymentsOn(inv, x) == PaymentsAt(IsSek(inv), false, Gross(inv.doc), inv.amountPaid, x);
    PaymentEffect(IsSek(inv), inv.amountPaid, Gross(inv.doc), account, amount, inv'.amountPaid, x);
  }

  lemma {:induction false} PaidRowKept(d: Desk, d': Desk, v: Voucher, id: nat, account: string, amount: int)
    requires TookPayment(d, d', v, id, account, amount) && InvoiceKept(d, id)
    ensures InvoiceKept(d', id) && EntryOf(d', d'.invoices[id]) == EntryOf(d, d.invoices[id])
  {
    RowTakesPayment(d.invoices[id], account, amount, |d.book.vouchers|);
  }

  lemma {:induction false} PaidRowAgrees(d: Desk, d': Desk, v: Voucher, id: nat, account: string, amount: int,
      x: string)
    requires TookPayment(d, d', v, id, account, amount) && InvoiceKept(d, id)
    requires Tracked(x) && account != x && ReconciledAt(d, id, x)
    requires EntryOf(d', d'.invoices[id]) == EntryOf(d, d.invoices[id])
    ensures ReconciledAt(d', id, x)
  {
    RowMoves(d.invoices[id], account, amount, |d.book.vouchers|, x);
    OwnGrows(d, d', v, id, x);
  }

  lemma {:induction false} OwnGrows(d: Desk, d': Desk, v: Voucher, id: nat, x: string)
    requires |d.owner| == |d.book.vouchers| && PostedFor(d, d', v, id)
    ensures OwnNet(d'.book.vouchers, d'.owner, id, One(x))
            == OwnNet(d.book.vouchers, d.owner, id, One(x)) + NetOf(v.lines, One(x))
  {
    assert d'.book.vouchers[..|d.book.vouchers|] == d.book.vouchers && d'.owner[..|d.owner|] == d.owner;
  }

  lemma {:induction false} ReversedBooks(lines: seq<Line>, receivable: int)
    requires BooksReceivable(lines, receivable)
    ensures BooksReceivable(Reversed(lines), receivable)
  {
    ReverseCancels(lines, One(RECEIVABLES));
    forall l | l in Reversed(lines) ensures l.account == RECEIVABLES || Aggregates.IsSaleAccount(l.account) {
      var k :| 0 <= k < |lines| && l == Swapped(lines[k]);
      assert lines[k] in lines;
    }
  }

  /** Marking an invoice credited disturbs no figure. */
  lemma {:induction false} MarkCreditedKeeps(d: Desk, id: nat, x: string)
    requires Kept(d) && id < |d.invoices| && (d.invoices[id].status == Finalized || d.invoices[id].status == Paid)
    ensures var d' := d.(invoices := d.invoices[id := d.invoices[id].(status := Credited)]);
            Kept(d') && (Reconciled(d, x) ==> Reconciled(d', x))
  {
    var d' := d.(invoices := d.invoices[id := d.invoices[id].(status := Credited)]);
    forall i | 0 <= i < |d.invoices| ensures InvoiceKept(d', i) && (ReconciledAt(d, i, x) ==> ReconciledAt(d', i, x)) {
      assert InvoiceKept(d, i);
      CreditedRowKept(d, d', i, d.invoices[i], d'.invoices[i], x);
    }
  }

  lemma {:induction false} CreditedRowKept(d: Desk, d': Desk, i: nat, inv: Invoice, inv': Invoice, x: string)
    requires |d.owner| == |d.book.vouchers| && d'.owner == d.owner && d'.book == d.book
    requires i < |d.invoices| && d.invoices[i] == inv && InvoiceKept(d, i)
    requires i < |d'.invoices| && d'.invoices[i] == inv'
    requires inv' == inv || (inv' == inv.(status := Credited) && inv.status != Draft)
    ensures InvoiceKept(d', i) && (ReconciledAt(d, i, x) ==> ReconciledAt(d', i, x))
  {
    assert EntryOf(d', inv') == EntryOf(d, inv) && PaymentsOn(inv', x) == PaymentsOn(inv, x);
  }

  lemma {:induction false} CreditKeeps(d: Desk, id: nat, date: int, text: string, x: string)
    requires Kept(d)
    ensures var d' := IssueCredit(d, id, date, text).0;
            Kept(d') && (Reconciled(d, x) ==> Reconciled(d', x))
  {
    if id < |d.invoices| && (d.invoices[id].status == Finalized || d.invoices[id].status == Paid) {
      assert InvoiceKept(d, id);
      var inv, note := d.invoices[id], |d.invoices|;
      CreateKeeps(d, inv.doc, Some(id), x);
      if IssueCredit(d, id, date, text).1.None? {
        CreditAccepted(d, Create(d, inv.doc, Some(id)), id, note, date, text, x);
      }
    }
  }

  lemma {:induction false} CreditAccepted(
    d: Desk, d1: Desk, id: nat, note: nat, date: int, text: string, x: string)
    requires Kept(d) && id < |d.invoices| == note && d1 == Create(d, d.invoices[id].doc, Some(id)) && Kept(d1)
    requires InvoiceKept(d, id) && IssueCredit(d, id, date, text).1.None?
    ensures var d' := IssueCredit(d, id, date, text).0;
            Kept(d') && (Reconciled(d1, x) ==> Reconciled(d', x))
  {
    var inv := d.invoices[id];
    var v := PostGrows(d.book, "F", date, text, Reversed(EntryOf(d, inv)));
    ReversedBooks(EntryOf(d, inv), Receivable(inv.doc));
    var d2 := CreditPosted(d1, note, v, Post(d.book, "F", date, text, Reversed(EntryOf(d, inv))).value, x);
    MarkCreditedKeeps(d2, id, x);
    assert d2.invoices[id] == inv;
    assert IssueCredit(d, id, date, text).0 == d2.(invoices := d2.invoices[id := inv.(status := Credited)]);
  }

  lemma {:induction false} CreditPosted(d1: Desk, note: nat, v: Voucher, b: Book, x: string) returns (d2: Desk)
    requires Kept(d1) && note < |d1.invoices| && d1.invoices[note].status == Draft && d1.invoices[note].credits.Some?
    requires WellKept(b) && b.vouchers == d1.book.vouchers + [v]
    requires BooksReceivable(v.lines, Receivable(d1.invoices[note].doc))
    ensures d2 == Desk(b, d1.invoices[note := MarkFinalized(d1.invoices[note], |d1.book.vouchers|)],
                       d1.owner + [Some(note)])
    ensures Kept(d2) && (Reconciled(d1, x) ==> Reconciled(d2, x))
  {
    d2 := Desk(b, d1.invoices[note := MarkFinalized(d1.invoices[note], |d1.book.vouchers|)], d1.owner + [Some(note)]);
    assert InvoiceKept(d1, note);
    FinalizedRowKept(d1, d2, v, note, x);
    PostedKeeps(d1, d2, v, note, x);
  }

  lemma {:induction false} OtherWorkKeeps(d: Desk, s: Runs.Step, x: string)
    requires Kept(d)
    ensures Kept(OtherWork(d, s)) && (Reconciled(d, x) ==> Reconciled(OtherWork(d, s), x))
  {
    var d' := OtherWork(d, s);
    Runs.StepKeepsBooks(d.book, s);
    assert d.book.vouchers <= d'.book.vouchers;
    forall i | 0 <= i < |d.invoices| ensures InvoiceKept(d', i) && (ReconciledAt(d, i, x) ==> ReconciledAt(d', i, x)) {
      assert InvoiceKept(d, i);
      OwnNetOthers(d'.book.vouchers, d'.owner, |d.owner|, i, One(x));
      assert d'.owner[..|d.owner|] == d.owner;
    }
  }

  // ---- Every run ----

  lemma {:induction false} StepKeeps(d: Desk, s: Step, x: string)
    requires Kept(d) && Tracked(x) && Reconciled(d, x) && Admissible(s, x)
    ensures Kept(After(d, s)) && Reconciled(After(d, s), x)
  {
    match s {
      case CreateStep(doc) => CreateKeeps(d, doc, None, x);
      case FinalizeStep(id, date, text) =>
        if Finalize(d, id, date, text).Ok? {
          FinalizeKeeps(d, id, date, text, x);
        }
      case PayStep(id, date, account, amount, text) =>
        if Pay(d, id, date, account, amount, text).Ok? {
          PayKeeps(d, id, date, account, amount, text, x);
        }
      case CreditStep(id, date, text) => CreditKeeps(d, id, date, text, x);
      case BooksStep(step) => OtherWorkKeeps(d, step, x);
    }
  }

  /** Over every run of creating, finalizing, paying and crediting invoices mixed
      with any other bookkeeping, the sub-ledger agrees with the general ledger. */
  lemma {:induction false} RunKeepsSubledger(d: Desk, steps: seq<Step>, x: string)
    requires Kept(d) && Reconciled(d, x) && Tracked(x)
    requires forall k :: 0 <= k < |steps| ==> Admissible(steps[k], x)
    ensures Kept(Run(d, steps)) && Reconciled(Run(d, steps), x)
    decreases |steps|
  {
    if steps != [] {
      StepKeeps(d, steps[0], x);
      RunKeepsSubledger(After(d, steps[0]), steps[1..], x);
    }
  }

  /** A company with no invoice yet, whatever is already booked. */
  function Opened(b: Book): Desk {
    Desk(b, [], seq(|b.vouchers|, _ => None))
  }

  /** What invoice i's own vouchers leave on account x. */
  function Own(d: Desk, i: nat, x: string): int {
    if |d.owner| == |d.book.vouchers| then OwnNet(d.book.vouchers, d.owner, i, One(x)) else 0
  }

  lemma {:induction false} OpenedKept(b: Book, x: string)
    requires WellKept(b)
    ensures Kept(Opened(b)) && Reconciled(Opened(b), x)
  {
    assert OwnersExist(Opened(b).owner, 0);
  }

  lemma {:induction false} RunFromOpened(b: Book, steps: seq<Step>, x: string)
    requires WellKept(b) && Tracked(x) && forall k :: 0 <= k < |steps| ==> Admissible(steps[k], x)
    ensures Kept(Run(Opened(b), steps)) && Reconciled(Run(Opened(b), steps), x)
  {
    OpenedKept(b, x);
    RunKeepsSubledger(Opened(b), steps, x);
  }

  /** In every reachable state and whatever the VAT codes: the vouchers an ordinary
      invoice posted leave on 1510 its receivable less what was paid while it is open,
      and less all that its payments cleared once it is settled. */
  lemma {:induction false} ReceivableStands(b: Book, steps: seq<Step>, i: nat)
    requires WellKept(b) && forall k :: 0 <= k < |steps| ==> Admissible(steps[k], RECEIVABLES)
    requires var d := Run(Opened(b), steps); i < |d.invoices| && d.invoices[i].credits.None?
    ensures var d := Run(Opened(b), steps); var inv := d.invoices[i]; var own := Own(d, i, RECEIVABLES);
            && (inv.status == Draft ==> own == 0)
            && (inv.status != Draft && !IsSettled(inv) ==> own == Receivable(inv.doc) - inv.amountPaid)
            && (inv.status != Draft && IsSettled(inv) ==> own == Receivable(inv.doc) - Cleared(inv))
            && (inv.status == Finalized ==> !IsSettled(inv)) && (inv.status == Paid ==> IsSettled(inv))
  {
    RunFromOpened(b, steps, RECEIVABLES);
    var d := Run(Opened(b), steps);
    assert InvoiceKept(d, i) && ReconciledAt(d, i, RECEIVABLES);
  }

  /** With a positive gross the payments of a settled invoice clear exactly the gross. */
  lemma {:induction false} ClearsGross(sek: bool, gross: int, paid: int)
    requires 0 < gross <= MAX_INT64 && 0 <= paid <= MAX_INT64
    ensures ClearedAt(sek, gross, paid) == gross && Minus64(gross, paid) == gross - paid
  {
  }

  /** For an invoice with known VAT codes that is: gross less what was paid while it is
      open, and nothing before it is finalized or once it is paid. An open invoice that
      took a payment is a SEK invoice still owing a krona or more. */
  lemma {:induction false} ReceivableAgrees(b: Book, steps: seq<Step>, i: nat)
    requires WellKept(b) && forall k :: 0 <= k < |steps| ==> Admissible(steps[k], RECEIVABLES)
    requires var d := Run(Opened(b), steps);
             i < |d.invoices| && d.invoices[i].credits.None? && CodesOf(d.invoices[i].doc) <= Aggregates.KNOWN
    ensures var d := Run(Opened(b), steps); var inv := d.invoices[i];
            var gross := Gross(inv.doc); var own := Own(d, i, RECEIVABLES);
            && (inv.status == Draft ==> own == 0)
            && (inv.status == Finalized ==> own == gross - inv.amountPaid > 0)
            && (inv.status == Finalized && inv.amountPaid > 0 ==> IsSek(inv) && gross - inv.amountPaid >= 100)
            && (inv.status == Paid ==> own == 0)
            && (inv.status == Credited ==> own == if IsSettled(inv) then 0 else gross - inv.amountPaid)
  {
    RunFromOpened(b, steps, RECEIVABLES);
    KnownAgrees(Run(Opened(b), steps), i);
  }

  lemma {:induction false} KnownAgrees(d: Desk, i: nat)
    requires Kept(d) && Reconciled(d, RECEIVABLES)
    requires i < |d.invoices| && d.invoices[i].credits.None? && CodesOf(d.invoices[i].doc) <= Aggregates.KNOWN
    ensures var inv := d.invoices[i]; var gross := Gross(inv.doc); var own := Own(d, i, RECEIVABLES);
            && (inv.status == Draft ==> own == 0)
            && (inv.status == Finalized ==> own == gross - inv.amountPaid > 0)
            && (inv.status == Finalized && inv.amountPaid > 0 ==> IsSek(inv) && gross - inv.amountPaid >= 100)
            && (inv.status == Paid ==> own == 0)
            && (inv.status == Credited ==> own == if IsSettled(inv) then 0 else gross - inv.amountPaid)
  {
    assert InvoiceKept(d, i) && ReconciledAt(d, i, RECEIVABLES);
    if d.invoices[i].status != Draft {
      AgreesWhenKnown(d, i);
    }
  }

  lemma {:induction false} AgreesWhenKnown(d: Desk, i: nat)
    requires |d.owner| == |d.book.vouchers| && i < |d.invoices| && InvoiceKept(d, i)
    requires CodesOf(d.invoices[i].doc) <= Aggregates.KNOWN && d.invoices[i].status != Draft
    ensures var inv := d.invoices[i]; var gross := Gross(inv.doc);
            && gross == Receivable(inv.doc) && 0 < gross <= MAX_INT64 && Cleared(inv) == gross
            && (!IsSettled(inv) && inv.amountPaid > 0 ==> IsSek(inv) && gross - inv.amountPaid >= 100)
  {
    var inv := d.invoices[i];
    GrossIsReceivablePlusUnknown(inv.doc);
    ClearsGross(IsSek(inv), Gross(inv.doc), inv.amountPaid);
  }

  lemma {:induction false} EntryOffTracked(d: Desk, i: nat, x: string)
    requires Kept(d) && i < |d.invoices| && (x == ROUNDING || x == GAIN || x == LOSS)
    ensures NetOf(EntryOf(d, d.invoices[i]), One(x)) == 0
  {
    assert InvoiceKept(d, i);
    if d.invoices[i].status != Draft {
      NetOfAbsent(EntryOf(d, d.invoices[i]), One(x));
    }
  }

  /** In every reachable state, credit notes included: what an invoice's own vouchers
      leave on the difference accounts is exactly what the payments were off by, which
      is gross less paid, in int64. A settled SEK invoice is off by less than a krona,
      all on 3740; a foreign one books a gain to 3960 or a loss to 7960; an unsettled
      one books nothing. */
  lemma {:induction false} DifferencesBooked(b: Book, steps: seq<Step>, i: nat, x: string)
    requires WellKept(b) && forall k :: 0 <= k < |steps| ==> Admissible(steps[k], x)
    requires x == ROUNDING || x == GAIN || x == LOSS
    requires i < |Run(Opened(b), steps).invoices|
    ensures var d := Run(Opened(b), steps); var inv := d.invoices[i]; var diff := Owed(inv);
            && (Gross(inv.doc) > 0 ==> diff == Gross(inv.doc) - inv.amountPaid)
            && (!IsSettled(inv) ==> Own(d, i, x) == 0)
            && (IsSettled(inv) && IsSek(inv) ==> Abs(diff) < 100 && Own(d, i, x) == if x == "3740" then diff else 0)
            && (IsSettled(inv) && !IsSek(inv) ==>
                  Own(d, i, x) == if (x == "3960" && diff < 0) || (x == "7960" && diff > 0) then diff else 0)
  {
    RunFromOpened(b, steps, x);
    var d := Run(Opened(b), steps);
    assert InvoiceKept(d, i) && ReconciledAt(d, i, x);
    EntryOffTracked(d, i, x);
    if Gross(d.invoices[i].doc) > 0 {
      ClearsGross(IsSek(d.invoices[i]), Gross(d.invoices[i].doc), d.invoices[i].amountPaid);
    }
  }

  // ---- Credit notes, and codes the entry does not know ----

  /** A credit note takes the invoice's whole entry back out of the books, on every
      selection of accounts, and leaves every other figure alone. */
  lemma {:induction false} CreditRestores(d: Desk, id: nat, date: int, text: string, w: Accounts)
    requires Kept(d) && IssueCredit(d, id, date, text).1.None?
    ensures Reports.Net(IssueCredit(d, id, date, text).0.book.vouchers, Reports.Always, w)
            == Reports.Net(d.book.vouchers, Reports.Always, w) - NetOf(EntryOf(d, d.invoices[id]), w)
  {
    var lines := Reversed(EntryOf(d, d.invoices[id]));
    var v := PostGrows(d.book, "F", date, text, lines);
    ReverseCancels(EntryOf(d, d.invoices[id]), w);
    Reports.NetSnoc(d.book.vouchers, v, Reports.Always, w);
  }

  /** A settled invoice clears 1510 exactly when its entry put there what the payments
      have cleared: the gross, whenever that is positive. */
  lemma {:induction false} SettledClearsIff(d: Desk, i: nat)
    requires Kept(d) && Reconciled(d, RECEIVABLES) && i < |d.invoices| && IsSettled(d.invoices[i])
    ensures var inv := d.invoices[i]; var entered := NetOf(EntryOf(d, inv), One(RECEIVABLES));
            && (Own(d, i, RECEIVABLES) == 0 <==> entered == Cleared(inv))
            && (Gross(inv.doc) > 0 ==> Own(d, i, RECEIVABLES) == entered - Gross(inv.doc))
  {
    var inv := d.invoices[i];
    assert InvoiceKept(d, i) && ReconciledAt(d, i, RECEIVABLES);
    if Gross(inv.doc) > 0 {
      ClearsGross(IsSek(inv), Gross(inv.doc), inv.amountPaid);
    }
  }

  /** Sound payments clear a positive receivable only if it is the gross. */
  lemma {:induction false} ClearsReceivableIff(sek: bool, gross: int, paid: int, receivable: int)
    requires Soundly(sek, true, gross, paid) && Fits(gross) && 0 < receivable <= MAX_INT64
    ensures ClearedAt(sek, gross, paid) == receivable <==> gross == receivable
  {
    var k := WrapIs(gross - paid);
    assert -1 <= k <= 1;
  }

  /** In every reachable state a paid invoice, of whatever gross, has cleared 1510
      exactly when the shares of its unknown VAT codes come to nothing in int64. */
  lemma {:induction false} PaidClearsIff(b: Book, steps: seq<Step>, i: nat)
    requires WellKept(b) && forall k :: 0 <= k < |steps| ==> Admissible(steps[k], RECEIVABLES)
    requires var d := Run(Opened(b), steps);
             i < |d.invoices| && d.invoices[i].credits.None? && d.invoices[i].status == Paid
    ensures var d := Run(Opened(b), steps);
            Own(d, i, RECEIVABLES) == 0 <==> Wrap(UnknownShares(d.invoices[i].doc)) == 0
  {
    ReceivableStands(b, steps, i);
    RunFromOpened(b, steps, RECEIVABLES);
    PaidRowClearsIff(Run(Opened(b), steps), i);
  }

  lemma {:induction false} PaidRowClearsIff(d: Desk, i: nat)
    requires |d.owner| == |d.book.vouchers| && i < |d.invoices| && InvoiceKept(d, i) && d.invoices[i].status == Paid
    ensures var inv := d.invoices[i];
            Receivable(inv.doc) == Cleared(inv) <==> Wrap(UnknownShares(inv.doc)) == 0
  {
    var inv := d.invoices[i];
    assert EntryStands(d, i);
    GrossIsReceivablePlusUnknown(inv.doc);
    ClearsReceivableIff(IsSek(inv), Gross(inv.doc), inv.amountPaid, Receivable(inv.doc));
  }

  /** A payment in full can be booked wherever an entry on 1510 is, if it fits. */
  lemma {:induction false} FullPaymentPosts(b: Book, v: Voucher, gross: int, account: string, date: int, text: string)
    requires WellKept(b) && v in b.vouchers && 0 < gross <= MAX_INT64 && NetOf(v.lines, One(RECEIVABLES)) != 0
    requires account in b.accounts && account != "" && !Locked(b.lock, date)
    ensures Post(b, "B", date, text, [Debit(account, gross), Credit(RECEIVABLES, gross)]).Ok?
  {
    var lines := [Debit(account, gross), Credit(RECEIVABLES, gross)];
    NetOfTwo(lines[0], lines[1], All);
    if RECEIVABLES !in b.accounts {
      assert forall l :: l in v.lines ==> l.account in b.accounts;
      NetOfAbsent(v.lines, One(RECEIVABLES));
    }
    PostKeepsBooks(b, "B", date, text, lines);
  }

  /** Paying any open, unpaid SEK invoice or credit note its positive gross is accepted
      and settles it; what is left on 1510 is what the entry put there less the gross. */
  lemma {:induction false} FullPaymentSettles(d: Desk, i: nat, date: int, account: string, text: string)
    requires Kept(d) && Reconciled(d, RECEIVABLES) && i < |d.invoices| && d.invoices[i].status == Finalized
    requires IsSek(d.invoices[i]) && d.invoices[i].amountPaid == 0 && Gross(d.invoices[i].doc) > 0
    requires account in d.book.accounts && account != "" && account != RECEIVABLES && !Locked(d.book.lock, date)
    ensures var inv := d.invoices[i]; var gross := Gross(inv.doc);
            var paid := Pay(d, i, date, account, gross, text);
            && paid.Ok? && paid.value.invoices[i].status == Paid
            && Own(paid.value, i, RECEIVABLES) == NetOf(EntryOf(d, inv), One(RECEIVABLES)) - gross
  {
    var inv := d.invoices[i];
    var gross := Gross(inv.doc);
    assert InvoiceKept(d, i);
    FullPayment(gross, account);
    FullPaymentPosts(d.book, d.book.vouchers[inv.verification.value], gross, account, date, text);
    PayKeeps(d, i, date, account, gross, text, RECEIVABLES);
    var d' := Pay(d, i, date, account, gross, text).value;
    PostedPrefix(d, i, date, account, gross, text);
    SettledClearsIff(d', i);
  }

  lemma {:induction false} FullPayment(gross: int, account: string)
    requires 0 < gross <= MAX_INT64
    ensures SekPayment(0, gross, account, gross)
            == Ok(Payment([Debit(account, gross), Credit(RECEIVABLES, gross)], true))
  {
  }

  lemma {:induction false} PostedPrefix(d: Desk, i: nat, date: int, account: string, amount: int, text: string)
    requires Kept(d) && Pay(d, i, date, account, amount, text).Ok?
    ensures EntryOf(Pay(d, i, date, account, amount, text).value,
                    Pay(d, i, date, account, amount, text).value.invoices[i])
            == EntryOf(d, d.invoices[i])
  {
    var inv := d.invoices[i];
    assert InvoiceKept(d, i);
    var v := PostGrows(d.book, "B", date, text, PaymentFor(inv, Gross(inv.doc), account, amount).value.lines);
  }

  /** Nothing refuses a payment on a credit note: crediting any open SEK invoice and
      then paying the note in full is accepted, and leaves the note's vouchers at minus
      the receivable and minus the gross again on 1510. */
  lemma {:induction false} CreditNotesCanBePaid(d: Desk, id: nat, date: int, text: string, account: string)
    requires Kept(d) && Reconciled(d, RECEIVABLES) && IssueCredit(d, id, date, text).1.None?
    requires d.invoices[id].credits.None? && IsSek(d.invoices[id]) && Gross(d.invoices[id].doc) > 0
    requires account in d.book.accounts && account != "" && account != RECEIVABLES
    ensures var note := |d.invoices|; var doc := d.invoices[id].doc;
            var d1 := IssueCredit(d, id, date, text).0;
            var paid := Pay(d1, note, date, account, Gross(doc), text);
            && paid.Ok? && paid.value.invoices[note].status == Paid
            && Own(paid.value, note, RECEIVABLES) == -Receivable(doc) - Gross(doc) < 0
  {
    var note, d1 := |d.invoices|, IssueCredit(d, id, date, text).0;
    CreditKeeps(d, id, date, text, RECEIVABLES);
    CreditNoteRows(d, id, date, text);
    assert InvoiceKept(d, id);
    CreditNoteIsOpen(d, id, date, text);
    FullPaymentSettles(d1, note, date, account, text);
  }

  lemma {:induction false} CreditNoteRows(d: Desk, id: nat, date: int, text: string)
    requires IssueCredit(d, id, date, text).1.None?
    ensures IssueCredit(d, id, date, text).0.invoices
            == d.invoices[id := d.invoices[id].(status := Credited)]
               + [MarkFinalized(NewInvoice(d.invoices[id].doc, Some(id)), |d.book.vouchers|)]
  {
  }

  lemma {:induction false} CreditNoteIsOpen(d: Desk, id: nat, date: int, text: string)
    requires WellKept(d.book) && |d.owner| == |d.book.vouchers| && IssueCredit(d, id, date, text).1.None?
    requires InvoiceKept(d, id) && d.invoices[id].credits.None?
    ensures var b := IssueCredit(d, id, date, text).0.book;
            && b.accounts == d.book.accounts && !Locked(b.lock, date)
            && |b.vouchers| == |d.book.vouchers| + 1
            && NetOf(b.vouchers[|d.book.vouchers|].lines, One(RECEIVABLES)) == -Receivable(d.invoices[id].doc) < 0
  {
    PostKeepsBooks(d.book, "F", date, text, Reversed(EntryOf(d, d.invoices[id])));
    ReverseCancels(EntryOf(d, d.invoices[id]), One(RECEIVABLES));
  }

  /** An ordinary invoice paid in full keeps exactly the shares of its unknown codes on
      1510, as a credit, when those and the gross stay in int64. */
  lemma {:induction false} UnknownCodesStayUncleared(d: Desk, i: nat, date: int, account: string, text: string)
    requires Kept(d) && Reconciled(d, RECEIVABLES) && i < |d.invoices| && d.invoices[i].status == Finalized
    requires d.invoices[i].credits.None? && IsSek(d.invoices[i]) && d.invoices[i].amountPaid == 0
    requires Gross(d.invoices[i].doc) > 0 && Fits(Receivable(d.invoices[i].doc) + UnknownShares(d.invoices[i].doc))
    requires account in d.book.accounts && account != "" && account != RECEIVABLES && !Locked(d.book.lock, date)
    ensures var paid := Pay(d, i, date, account, Gross(d.invoices[i].doc), text);
            && paid.Ok? && paid.value.invoices[i].status == Paid
            && Own(paid.value, i, RECEIVABLES) == -UnknownShares(d.invoices[i].doc)
  {
    assert InvoiceKept(d, i);
    GrossIsReceivablePlusUnknown(d.invoices[i].doc);
    FullPaymentSettles(d, i, date, account, text);
  }
}
