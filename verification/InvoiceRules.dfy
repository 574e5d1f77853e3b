/** What each invoice transaction posts and marks, and when it refuses: series, dates,
    accounts and amounts written out. */
module InvoiceRules {
  import opened Prelude
  import opened Ledger
  import opened Books
  import opened Receivables
  import Invoicing

  /** The next voucher of a series. */
  function NextVoucher(b: Book, series: string, date: int, text: string, lines: seq<Line>): Voucher {
    Voucher(series, CountSeries(b.vouchers, series) + 1, date, text, lines)
  }

  ghost predicate Accepts(b: Book, date: int, lines: seq<Line>) {
    Postable(lines) && KnownAccounts(lines, b.accounts) && (b.lock.None? || date > b.lock.value)
  }

  // ---- Create ----

  /** A new row holds the document with SEK for no currency and one for no rate, is a
      draft, and has nothing paid and nothing posted. */
  lemma {:induction false} CreateAppends(d: Desk, doc: Invoicing.Document, credits: Option<nat>)
    ensures var d' := Create(d, doc, credits); var row := d'.invoices[|d.invoices|];
            && d'.book == d.book && d'.owner == d.owner && |d'.invoices| == |d.invoices| + 1
            && d'.invoices[..|d.invoices|] == d.invoices
            && row.doc.items == doc.items && row.doc.currency == (if |doc.currency| == 0 then "SEK" else doc.currency)
            && row.doc.ratePpm == (if doc.ratePpm == 0 then 1_000_000 else doc.ratePpm)
            && row.status == Draft && row.amountPaid == 0 && row.credits == credits
            && row.verification == None && row.payment == None
  {
  }

  // ---- Finalize ----

  /** A draft is finalized exactly when its entry can be posted: in series F, once. */
  lemma {:induction false} FinalizePosts(d: Desk, id: nat, date: int, text: string)
    requires WellKept(d.book)
    ensures var r := Finalize(d, id, date, text);
            && (r == Err(NoSuchInvoice) <==> id >= |d.invoices|)
            && (r == Err(NotDraft) <==> id < |d.invoices| && d.invoices[id].status != Draft)
            && (r.Ok? <==> id < |d.invoices| && d.invoices[id].status == Draft
                           && Accepts(d.book, date, Invoicing.EntryLines(d.invoices[id].doc)))
    ensures Finalize(d, id, date, text).Ok? ==>
              var d', inv := Finalize(d, id, date, text).value, d.invoices[id];
              && d'.book == d.book.(vouchers := d.book.vouchers
                                    + [NextVoucher(d.book, "F", date, text, Invoicing.EntryLines(inv.doc))])
              && d'.owner == d.owner + [Some(id)]
              && d'.invoices == d.invoices[id := Invoice(inv.doc, Finalized, inv.amountPaid, Some(|d.book.vouchers|),
                                                         inv.payment, inv.credits)]
  {
    if id < |d.invoices| {
      PostKeepsBooks(d.book, "F", date, text, Invoicing.EntryLines(d.invoices[id].doc));
    }
  }

  // ---- Pay ----

  /** A SEK payment, by what it leaves of the receivable: nothing settles it; less than
      a krona either way is written off on 3740; more than that too much is refused; and
      more than that too little leaves the invoice open. */
  lemma {:induction false} SekPaymentIs(paid: int, gross: int, account: string, amount: int)
    requires 0 <= paid <= gross <= MAX_INT64 && 0 < amount <= MAX_INT64
    ensures var r, left := SekPayment(paid, gross, account, amount), gross - paid - amount;
            var plain := [Line(account, amount, 0, ""), Line("1510", 0, amount, "")];
            && (left == 0 ==> r == Ok(Payment(plain, true)))
            && (0 < left < 100 ==>
                  r == Ok(Payment(plain + [Line("1510", 0, left, ""), Line("3740", left, 0, "")], true)))
            && (-100 < left < 0 ==>
                  r == Ok(Payment(plain + [Line("1510", -left, 0, ""), Line("3740", 0, -left, "")], true)))
            && (left <= -100 ==> r == Err(PaymentMismatch))
            && (left >= 100 ==> r == Ok(Payment(plain, false)))
  {
    WrapAdd(paid + amount, gross);
    SekByResidual(paid, gross, account, amount, gross - paid - amount);
  }

  lemma {:induction false} SekByResidual(paid: int, gross: int, account: string, amount: int, left: int)
    requires Minus64(gross, Plus64(paid, amount)) == left && MIN_INT64 < left <= MAX_INT64
    ensures var r, plain := SekPayment(paid, gross, account, amount), [Debit(account, amount), Credit("1510", amount)];
            r == if left == 0 then Ok(Payment(plain, true))
                 else if 0 < left < 100 then Ok(Payment(plain + [Credit("1510", left), Debit("3740", left)], true))
                 else if -100 < left < 0 then Ok(Payment(plain + [Debit("1510", -left), Credit("3740", -left)], true))
                 else if left < 0 then Err(PaymentMismatch) else Ok(Payment(plain, false))
  {
    assert left < 0 ==> Minus64(0, left) == -left;
  }

  /** A foreign invoice takes one payment, which clears all of it: more is a currency
      gain on 3960, less a loss on 7960. */
  lemma {:induction false} ForeignPaymentIs(paid: int, gross: int, account: string, amount: int)
    requires 0 <= gross <= MAX_INT64 && 0 < amount <= MAX_INT64
    ensures var r := ForeignPayment(paid, gross, account, amount);
            var plain := [Line(account, amount, 0, ""), Line("1510", 0, gross, "")];
            && (paid != 0 ==> r == Err(PaymentMismatch))
            && (paid == 0 && amount == gross ==> r == Ok(Payment(plain, true)))
            && (paid == 0 && amount > gross ==> r == Ok(Payment(plain + [Line("3960", 0, amount - gross, "")], true)))
            && (paid == 0 && amount < gross ==> r == Ok(Payment(plain + [Line("7960", gross - amount, 0, "")], true)))
  {
    var plain := [Line(account, amount, 0, ""), Line("1510", 0, gross, "")];
    assert plain + [] == plain;
  }

  /** The lines of a payment, if the row allows one at all. */
  ghost function Paying(inv: Invoice, account: string, amount: int): Result<Payment, Problem> {
    if inv.doc.currency == "SEK" then SekPayment(inv.amountPaid, Invoicing.Gross(inv.doc), account, amount)
    else ForeignPayment(inv.amountPaid, Invoicing.Gross(inv.doc), account, amount)
  }

  lemma {:induction false} PaymentForIs(inv: Invoice, account: string, amount: int)
    ensures PaymentFor(inv, Invoicing.Gross(inv.doc), account, amount)
         == if inv.status != Finalized then Err(NotFinalized)
            else if amount <= 0 then Err(PaymentMismatch)
            else Paying(inv, account, amount)
    ensures Paying(inv, account, amount).Err? ==> Paying(inv, account, amount).error == PaymentMismatch
  {
  }

  /** The problems of a payment, in the order they are looked for. */
  lemma {:induction false} PayRefusals(d: Desk, id: nat, date: int, account: string, amount: int, text: string)
    ensures var r := Pay(d, id, date, account, amount, text);
            && (r == Err(NoSuchInvoice) <==> id >= |d.invoices|)
            && (r == Err(NotFinalized) <==> id < |d.invoices| && d.invoices[id].status != Finalized)
            && (r == Err(PaymentMismatch) <==>
                  id < |d.invoices| && d.invoices[id].status == Finalized
                  && (amount <= 0 || Paying(d.invoices[id], account, amount).Err?))
  {
    if id < |d.invoices| {
      PaymentForIs(d.invoices[id], account, amount);
    }
  }

  /** A payment is posted in series B and counted on the row, which is paid once it is
      settled: exactly when it can be booked and the amount paid stays in the column. */
  lemma {:induction false} PayPosts(d: Desk, id: nat, date: int, account: string, amount: int, text: string)
    requires WellKept(d.book) && id < |d.invoices| && d.invoices[id].status == Finalized && amount > 0
    requires Paying(d.invoices[id], account, amount).Ok?
    ensures var r, inv := Pay(d, id, date, account, amount, text), d.invoices[id];
            var pay := Paying(inv, account, amount).value;
            && (r.Ok? <==> Accepts(d.book, date, pay.lines) && MIN_INT64 <= inv.amountPaid + amount <= MAX_INT64)
            && (r.Ok? ==>
                  && r.value.book == d.book.(vouchers := d.book.vouchers
                                             + [NextVoucher(d.book, "B", date, text, pay.lines)])
                  && r.value.owner == d.owner + [Some(id)]
                  && r.value.invoices == d.invoices[id :=
                       Invoice(inv.doc, if pay.settles then Paid else Finalized, inv.amountPaid + amount,
                               inv.verification, if pay.settles then Some(|d.book.vouchers|) else inv.payment,
                               inv.credits)])
  {
    var inv := d.invoices[id];
    PaymentForIs(inv, account, amount);
    PayWith(d, id, date, account, amount, text, Paying(inv, account, amount).value);
    RowPays(inv, amount, Paying(inv, account, amount).value.settles, |d.book.vouchers|);
  }

  lemma {:induction false} PayWith(
    d: Desk, id: nat, date: int, account: string, amount: int, text: string, pay: Payment)
    requires WellKept(d.book) && id < |d.invoices|
    requires PaymentFor(d.invoices[id], Invoicing.Gross(d.invoices[id].doc), account, amount) == Ok(pay)
    ensures var r, inv := Pay(d, id, date, account, amount, text), d.invoices[id];
            && (r.Ok? <==> Accepts(d.book, date, pay.lines) && MIN_INT64 <= inv.amountPaid + amount <= MAX_INT64)
            && (r.Ok? ==>
                  && r.value.book == d.book.(vouchers := d.book.vouchers
                                             + [NextVoucher(d.book, "B", date, text, pay.lines)])
                  && r.value.owner == d.owner + [Some(id)]
                  && r.value.invoices == d.invoices[id :=
                       AfterPayment(inv, amount, pay.settles, |d.book.vouchers|)])
  {
    PostKeepsBooks(d.book, "B", date, text, pay.lines);
  }

  lemma {:induction false} RowPays(inv: Invoice, amount: int, settles: bool, voucher: nat)
    requires inv.status == Finalized
    ensures AfterPayment(inv, amount, settles, voucher)
         == Invoice(inv.doc, if settles then Paid else Finalized, inv.amountPaid + amount,
                    inv.verification, if settles then Some(voucher) else inv.payment, inv.credits)
  {
  }

  // ---- Credit ----

  /** Crediting appends the note, a draft with the same document. If the original's
      entry can be posted with its sides swapped, in series F, the note is finalized and
      the original marked; otherwise the draft stays and nothing is posted. */
  lemma {:induction false} CreditPosts(d: Desk, id: nat, date: int, text: string)
    requires WellKept(d.book)
    ensures var (d', problem) := IssueCredit(d, id, date, text);
            && (problem == Some(NoSuchInvoice) <==> id >= |d.invoices|)
            && (problem == Some(NotFinalized) <==>
                  id < |d.invoices| && d.invoices[id].status != Finalized && d.invoices[id].status != Paid)
            && (problem == Some(NoSuchInvoice) || problem == Some(NotFinalized) ==> d' == d)
    ensures id < |d.invoices| && (d.invoices[id].status == Finalized || d.invoices[id].status == Paid) ==>
              var (d', problem) := IssueCredit(d, id, date, text);
              var inv, note, lines := d.invoices[id], |d.invoices|, Reversed(EntryOf(d, d.invoices[id]));
              && |d'.invoices| == note + 1 && d'.invoices[note].credits == Some(id)
              && d'.invoices[note].doc.items == inv.doc.items && d'.invoices[note].amountPaid == 0
              && (forall i :: 0 <= i < note && i != id ==> d'.invoices[i] == d.invoices[i])
              && (problem.None? <==> Accepts(d.book, date, lines))
              && if problem.None? then
                   && d'.book == d.book.(vouchers := d.book.vouchers + [NextVoucher(d.book, "F", date, text, lines)])
                   && d'.owner == d.owner + [Some(note)]
                   && d'.invoices[note].status == Finalized && d'.invoices[note].verification == Some(|d.book.vouchers|)
                   && d'.invoices[id]
                      == Invoice(inv.doc, Credited, inv.amountPaid, inv.verification, inv.payment, inv.credits)
                 else
                   && d'.book == d.book && d'.owner == d.owner
                   && d'.invoices[note].status == Draft && d'.invoices[id] == inv
  {
    if id < |d.invoices| {
      PostKeepsBooks(d.book, "F", date, text, Reversed(EntryOf(d, d.invoices[id])));
    }
  }
}
