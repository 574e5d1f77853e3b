/** The store's invoice transactions, step by step, against the sub-ledger model. */
module InvoiceDesk {
  import opened Prelude
  import opened Ledger
  import Books
  import Invoicing
  import opened Receivables
  import ReceivablesProof

  class Office {
    const company: Books.Company
    var invoices: seq<Invoice>
    ghost var owner: seq<Option<nat>>

    constructor (company: Books.Company)
      ensures this.company == company && Current() == ReceivablesProof.Opened(company.Current())
    {
      this.company := company;
      invoices, owner := [], seq(|company.vouchers|, _ => None);
    }

    ghost function Current(): Desk
      reads this, company
    {
      Desk(company.Current(), invoices, owner)
    }

    method CreateInvoice(doc: Invoicing.Document) returns (id: nat)
      modifies this
      ensures Current() == Create(old(Current()), doc, None) && id == old(|invoices|)
    {
      id := |invoices|;
      var currency, rate := doc.currency, doc.ratePpm;
      if currency == "" {
        currency := "SEK";
      }
      if rate == 0 {
        rate := 1_000_000;
      }
      var stored := Invoicing.Document(currency, rate, doc.items);
      invoices := invoices + [Invoice(stored, Draft, 0, None, None, None)];
    }

    /** Build the entry, post it in series F, mark the invoice finalized. */
    method FinalizeInvoice(id: nat, date: int, text: string) returns (problem: Option<Problem>)
      modifies this, company`vouchers
      ensures match Finalize(old(Current()), id, date, text)
              case Ok(d) => Current() == d && problem == None
              case Err(p) => Current() == old(Current()) && problem == Some(p)
    {
      if id >= |invoices| {
        return Some(NoSuchInvoice);
      }
      if invoices[id].status != Draft {
        return Some(NotDraft);
      }
      var lines := Invoicing.VerificationLines(invoices[id].doc);
      var voucher := |company.vouchers|;
      var posted := company.PostVerification("F", date, text, lines);
      if posted.Err? {
        return Some(Refused(posted.error));
      }
      invoices := invoices[id := invoices[id].(status := Finalized, verification := Some(voucher))];
      owner := owner + [Some(id)];
      return None;
    }

    /** Settle or part-settle an invoice, in int64. A sum the amount_paid column cannot
        hold rolls the whole payment back. */
    method RecordPayment(id: nat, date: int, account: string, amount: int, text: string)
      returns (problem: Option<Problem>)
      requires Fits(amount) && (id < |invoices| ==> Fits(invoices[id].amountPaid))
      modifies this, company`vouchers
      ensures match Pay(old(Current()), id, date, account, amount, text)
              case Ok(d) => Current() == d && problem == None
              case Err(p) => Current() == old(Current()) && problem == Some(p)
    {
      if id >= |invoices| {
        return Some(NoSuchInvoice);
      }
      var inv := invoices[id];
      if inv.status != Finalized {
        return Some(NotFinalized);
      }
      if amount <= 0 {
        return Some(PaymentMismatch);
      }
      var gross := Invoicing.GrossSek(inv.doc);
      var pay := PaymentLines(inv.doc.currency == "SEK", inv.amountPaid, gross, account, amount);
      if pay.Err? {
        return Some(pay.error);
      }
      var before := company.vouchers;
      var posted := company.PostVerification("B", date, text, pay.value.lines);
      if posted.Err? {
        return Some(Refused(posted.error));
      }
      if !Fits(inv.amountPaid + amount) {
        company.vouchers := before;
        return Some(OutOfRange);
      }
      Registered(id, amount, pay.value.settles, |before|);
      return None;
    }

    /** AddInvoicePayment, then MarkInvoicePaid if nothing is left. */
    method Registered(id: nat, amount: int, settles: bool, voucher: nat)
      requires id < |invoices|
      modifies this
      ensures invoices == old(invoices)[id := AfterPayment(old(invoices)[id], amount, settles, voucher)]
      ensures owner == old(owner) + [Some(id)]
    {
      var inv := invoices[id];
      inv := inv.(amountPaid := inv.amountPaid + amount);
      if settles {
        inv := inv.(status := Paid, payment := Some(voucher));
      }
      invoices := invoices[id := inv];
      owner := owner + [Some(id)];
    }

    /** Create the credit note, reverse the original's entry, mark the original. */
    method CreditInvoice(id: nat, date: int, text: string) returns (problem: Option<Problem>)
      requires id < |invoices| ==> LinesFit(EntryOf(Current(), invoices[id]))
      modifies this, company`vouchers
      ensures Current() == IssueCredit(old(Current()), id, date, text).0
      ensures problem == IssueCredit(old(Current()), id, date, text).1
    {
      if id >= |invoices| {
        return Some(NoSuchInvoice);
      }
      var inv := invoices[id];
      if inv.status != Finalized && inv.status != Paid {
        return Some(NotFinalized);
      }
      var note, voucher := |invoices|, |company.vouchers|;
      invoices := invoices + [NewInvoice(inv.doc, Some(id))];
      var entry := [];
      if inv.verification.Some? && inv.verification.value < voucher {
        entry := company.vouchers[inv.verification.value].lines;
      }
      var lines := Reverse(entry);
      assert lines == Reversed(EntryOf(old(Current()), inv));
      ReversalFits(entry);
      var posted := company.PostVerification("F", date, text, lines);
      if posted.Err? {
        return Some(Refused(posted.error));
      }
      invoices := invoices[note := invoices[note].(status := Finalized, verification := Some(voucher))];
      invoices := invoices[id := inv.(status := Credited)];
      owner := owner + [Some(note)];
      return None;
    }
  }

  /** The branches of RecordPayment, growing the lines in int64 arithmetic. */
  method PaymentLines(sek: bool, paid: int, gross: int, account: string, amount: int)
    returns (pay: Result<Payment, Problem>)
    requires 0 < amount <= MAX_INT64 && Fits(gross) && Fits(paid)
    ensures pay == PaymentOf(sek, paid, gross, account, amount)
    ensures pay.Ok? ==> LinesFit(pay.value.lines)
  {
    if !sek {
      pay := ForeignLines(paid, gross, account, amount);
    } else {
      pay := SekLines(paid, gross, account, amount);
    }
  }

  method ForeignLines(paid: int, gross: int, account: string, amount: int) returns (pay: Result<Payment, Problem>)
    requires 0 < amount <= MAX_INT64 && Fits(gross)
    ensures pay == ForeignPayment(paid, gross, account, amount)
    ensures pay.Ok? ==> LinesFit(pay.value.lines)
  {
    var lines := [Debit(account, amount), Credit(RECEIVABLES, amount)];
    if paid != 0 {
      return Err(PaymentMismatch);
    }
    lines := lines[1 := Credit(RECEIVABLES, gross)];
    assert lines == [Debit(account, amount), Credit(RECEIVABLES, gross)];
    var diff := Minus64(amount, gross);
    if diff > 0 {
      lines := lines + [Credit(GAIN, diff)];
    } else if diff < 0 {
      lines := lines + [Debit(LOSS, Minus64(0, diff))];
    }
    assert diff == 0 ==> lines + [] == lines;
    return Ok(Payment(lines, true));
  }

  method SekLines(paid: int, gross: int, account: string, amount: int) returns (pay: Result<Payment, Problem>)
    requires 0 < amount <= MAX_INT64 && Fits(gross) && Fits(paid)
    ensures pay == SekPayment(paid, gross, account, amount)
    ensures pay.Ok? ==> LinesFit(pay.value.lines)
  {
    var lines := [Debit(account, amount), Credit(RECEIVABLES, amount)];
    var newPaid := Plus64(paid, amount);
    var residual := Minus64(gross, newPaid);
    if residual == 0 {
      return Ok(Payment(lines, true));
    }
    if Size(residual) < THRESHOLD {
      if residual > 0 {
        lines := lines + [Credit(RECEIVABLES, residual), Debit(ROUNDING, residual)];
      } else {
        var r := Minus64(0, residual);
        lines := lines + [Debit(RECEIVABLES, r), Credit(ROUNDING, r)];
      }
      return Ok(Payment(lines, true));
    }
    if residual < 0 {
      return Err(PaymentMismatch);
    }
    return Ok(Payment(lines, false));
  }

  /** On an open invoice with a positive gross the amount paid so far may wrap; what
      remains does not. */
  lemma {:induction false} ResidualIsTrue(gross: int, paid: int, amount: int)
    requires 0 <= paid <= gross <= MAX_INT64 && 0 < amount <= MAX_INT64
    ensures Minus64(gross, Plus64(paid, amount)) == gross - paid - amount
  {
    WrapAdd(paid + amount, gross);
  }

  lemma {:induction false} ReversalFits(lines: seq<Line>)
    requires LinesFit(lines)
    ensures LinesFit(Reversed(lines))
  {
    forall l | l in Reversed(lines) ensures Fits(l.debit) && Fits(l.credit) {
      var i :| 0 <= i < |lines| && l == Swapped(lines[i]);
      assert lines[i] in lines;
    }
  }
}
