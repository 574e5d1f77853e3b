/** The store's bank operations as one uninterrupted caller runs them. */
module BankDesk {
  import opened Prelude
  import opened Ledger
  import Books
  import opened BankClaims
  import R = Receivables
  import D = InvoiceDesk

  datatype BankProblem = NotOpen | NotPaid(problem: R.Problem) | NotPosted(why: Books.Refusal)

  /** An imported transaction; the amount is positive for money in. */
  class BankRow {
    const amount: int
    const date: int
    const account: string
    var status: Status
    var verification: Option<nat>
    var matched: Option<nat>

    constructor (amount: int, date: int, account: string)
      ensures this.amount == amount && this.date == date && this.account == account
      ensures status == Unmatched && verification == None && matched == None
    {
      this.amount, this.date, this.account := amount, date, account;
      status, verification, matched := Unmatched, None, None;
    }

    /** The guarded updates report how many rows they changed. */
    method Claim() returns (n: nat)
      modifies this`status
      ensures old(status) == Unmatched ==> n == 1 && status == Booking
      ensures old(status) != Unmatched ==> n == 0 && status == old(status)
    {
      if status == Unmatched {
        status := Booking;
        return 1;
      }
      return 0;
    }

    method Unclaim() returns (n: nat)
      modifies this`status
      ensures old(status) == Booking ==> n == 1 && status == Unmatched
      ensures old(status) != Booking ==> n == 0 && status == old(status)
    {
      if status == Booking {
        status := Unmatched;
        return 1;
      }
      return 0;
    }

    method MarkBooked(voucher: nat, invoice: Option<nat>) returns (n: nat)
      modifies this
      ensures CanMark(old(status)) ==> n == 1 && status == Booked && verification == Some(voucher) && matched == invoice
      ensures !CanMark(old(status)) ==>
                n == 0 && status == old(status) && verification == old(verification) && matched == old(matched)
    {
      if status == Unmatched || status == Booking {
        status, verification, matched := Booked, Some(voucher), invoice;
        return 1;
      }
      return 0;
    }

    method Ignore() returns (problem: Option<BankProblem>)
      modifies this`status
      ensures old(status) == Unmatched ==> problem == None && status == Ignored
      ensures old(status) != Unmatched ==> problem == Some(NotOpen) && status == old(status)
    {
      if status == Unmatched {
        status := Ignored;
        return None;
      }
      return Some(NotOpen);
    }
  }

  /** Claim, pay, mark. A refused payment gives the claim back and changes nothing. */
  method BookToInvoice(row: BankRow, office: D.Office, id: nat, text: string) returns (problem: Option<BankProblem>)
    requires Fits(row.amount) && (id < |office.invoices| ==> Fits(office.invoices[id].amountPaid))
    modifies row, office, office.company`vouchers
    ensures var open := old(row.status) == Unmatched && row.amount > 0;
            var paid := R.Pay(old(office.Current()), id, row.date, row.account, row.amount, text);
            && (open && paid.Ok? ==>
                  && problem == None && office.Current() == paid.value && row.status == Booked
                  && row.verification == Some(|old(office.company.vouchers)|) && row.matched == Some(id))
            && (open && paid.Err? ==>
                  && problem == Some(NotPaid(paid.error)) && office.Current() == old(office.Current())
                  && row.status == Unmatched)
            && (!open ==>
                  && problem == Some(NotOpen) && office.Current() == old(office.Current())
                  && row.status == old(row.status))
  {
    if row.status != Unmatched || row.amount <= 0 {
      return Some(NotOpen);
    }
    var claimed := row.Claim();
    var voucher := |office.company.vouchers|;
    var refused := office.RecordPayment(id, row.date, row.account, row.amount, text);
    if refused.Some? {
      var released := row.Unclaim();
      return Some(NotPaid(refused.value));
    }
    var n := row.MarkBooked(voucher, Some(id));
    return None;
  }

  /** Money in debits the bank account, money out credits it; a negated int64 wraps. */
  function AccountLines(bank: string, amount: int, account: string): seq<Line> {
    if amount > 0 then [Debit(bank, amount), Credit(account, amount)]
    else [Debit(account, Wrap(-amount)), Credit(bank, Wrap(-amount))]
  }

  /** Every amount but zero and MinInt64 books, and moves exactly the amount. */
  lemma {:induction false} AccountLinesBook(bank: string, amount: int, account: string)
    requires Fits(amount) && bank != "" && account != ""
    ensures Postable(AccountLines(bank, amount, account)) <==> amount != 0 && amount != MIN_INT64
    ensures Postable(AccountLines(bank, amount, account)) && account != bank ==>
              NetOf(AccountLines(bank, amount, account), One(bank)) == amount
              && NetOf(AccountLines(bank, amount, account), One(account)) == -amount
  {
    var ls := AccountLines(bank, amount, account);
    NetOfTwo(ls[0], ls[1], One(bank));
    NetOfTwo(ls[0], ls[1], One(account));
    assert Wrap(-MIN_INT64) == MIN_INT64;
    assert Postable(ls) ==> OneSided(ls[0]) && OneSided(ls[1]);
  }

  /** Post and mark in one transaction; series BK. */
  method BookToAccount(row: BankRow, company: Books.Company, account: string, text: string)
    returns (problem: Option<BankProblem>)
    requires Fits(row.amount)
    modifies row, company`vouchers
    ensures var posted := Books.Post(old(company.Current()), "BK", row.date, text,
                                     AccountLines(row.account, row.amount, account));
            && (old(row.status) == Unmatched && posted.Ok? ==>
                  problem == None && company.Current() == posted.value && row.status == Booked
                  && row.verification == Some(|old(company.vouchers)|) && row.matched == None)
            && (old(row.status) == Unmatched && posted.Err? ==>
                  problem == Some(NotPosted(posted.error)) && company.Current() == old(company.Current())
                    && row.status == Unmatched)
            && (old(row.status) != Unmatched ==>
                  problem == Some(NotOpen) && company.Current() == old(company.Current())
                    && row.status == old(row.status))
  {
    if row.status != Unmatched {
      return Some(NotOpen);
    }
    var amount := row.amount;
    var lines: seq<Line>;
    if amount > 0 {
      lines := [Debit(row.account, amount), Credit(account, amount)];
    } else {
      lines := [Debit(account, Wrap(-amount)), Credit(row.account, Wrap(-amount))];
    }
    var voucher := |company.vouchers|;
    var posted := company.PostVerification("BK", row.date, text, lines);
    if posted.Err? {
      return Some(NotPosted(posted.error));
    }
    var n := row.MarkBooked(voucher, None);
    return None;
  }
}
