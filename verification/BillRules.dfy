/** What each supplier transaction posts and marks, and when it refuses. */
module BillRules {
  import opened Prelude
  import opened Ledger
  import opened Books
  import opened Receivables
  import opened Payables
  import opened InvoiceRules
  import Moms

  /** A bill with a positive net in int64 is recorded as a draft; no other is. */
  lemma {:induction false} CreateBillIs(d: Ledgers, cost: string, net: int, code: Moms.PurchaseCode, date: int)
    ensures net <= 0 ==> CreateBill(d, cost, net, code, date) == Err(NetNotPositive)
    ensures 0 < net <= MAX_INT64 ==>
              CreateBill(d, cost, net, code, date)
              == Ok(Ledgers(d.book, d.bills + [Bill(cost, net, code, date, Draft, 0)], d.owner))
  {
  }

  /** A draft is finalized exactly when its purchase can be posted: in series L, on the
      bill's own date. */
  lemma {:induction false} FinalizeBillPosts(d: Ledgers, id: nat, text: string)
    requires WellKept(d.book)
    ensures var r := FinalizeBill(d, id, text);
            && (r == Err(NoSuchInvoice) <==> id >= |d.bills|)
            && (r == Err(NotDraft) <==> id < |d.bills| && d.bills[id].status != Draft)
            && (r.Ok? <==>
                  && id < |d.bills| && d.bills[id].status == Draft
                  && Accepts(d.book, d.bills[id].date,
                             Moms.PurchaseLines(d.bills[id].cost, d.bills[id].net, d.bills[id].code)))
    ensures FinalizeBill(d, id, text).Ok? ==>
              var d', bill := FinalizeBill(d, id, text).value, d.bills[id];
              && d'.book == d.book.(vouchers := d.book.vouchers
                                    + [NextVoucher(d.book, "L", bill.date, text,
                                                   Moms.PurchaseLines(bill.cost, bill.net, bill.code))])
              && d'.bills == d.bills[id := Bill(bill.cost, bill.net, bill.code, bill.date, Finalized, bill.paid)]
              && d'.owner == d.owner + [Some(id)]
  {
    if id < |d.bills| {
      var bill := d.bills[id];
      PostKeepsBooks(d.book, "L", bill.date, text, Moms.PurchaseLines(bill.cost, bill.net, bill.code));
    }
  }

  /** A payment of a finalized bill clears the debt on 2440 whole. Less than a krona of
      difference goes to 3740, on the side that balances, and more is refused. */
  lemma {:induction false} BillPaymentIs(bill: Bill, account: string, amount: int)
    requires bill.status == Finalized && 0 < Payables.Owed(bill) <= MAX_INT64
    ensures var r, owed := BillPayment(bill, account, amount), Moms.Payable(bill.net, bill.code);
            var plain := [Line("2440", owed, 0, ""), Line(account, 0, amount, "")];
            && (amount <= 0 ==> r == Err(PaymentMismatch))
            && (amount > 0 && amount == owed ==> r == Ok(plain))
            && (amount > 0 && 0 < owed - amount < 100 ==> r == Ok(plain + [Line("3740", 0, owed - amount, "")]))
            && (0 < amount - owed < 100 ==> r == Ok(plain + [Line("3740", amount - owed, 0, "")]))
            && (MAX_INT64 >= amount > 0 && Abs(owed - amount) >= 100 ==> r == Err(PaymentMismatch))
  {
    var plain := [Line("2440", Payables.Owed(bill), 0, ""), Line(account, 0, amount, "")];
    assert plain + [] == plain;
  }

  /** The problems of a payment, in the order they are looked for. */
  lemma {:induction false} PayBillRefusals(d: Ledgers, id: nat, date: int, account: string, amount: int, text: string)
    ensures var r := PayBill(d, id, date, account, amount, text);
            && (r == Err(NoSuchInvoice) <==> id >= |d.bills|)
            && (r == Err(NotFinalized) <==> id < |d.bills| && d.bills[id].status != Finalized)
            && (r == Err(PaymentMismatch) <==>
                  id < |d.bills| && d.bills[id].status == Finalized && BillPayment(d.bills[id], account, amount).Err?)
  {
  }

  /** A payment that is not refused is posted in series LB on the given date, exactly when
      its entry can be, and the bill is then paid. */
  lemma {:induction false} PayBillPosts(d: Ledgers, id: nat, date: int, account: string, amount: int, text: string)
    requires WellKept(d.book) && id < |d.bills| && BillPayment(d.bills[id], account, amount).Ok?
    ensures var r, bill := PayBill(d, id, date, account, amount, text), d.bills[id];
            var lines := BillPayment(bill, account, amount).value;
            && (r.Ok? <==> Accepts(d.book, date, lines))
            && (r.Ok? ==>
                  && r.value.book == d.book.(vouchers := d.book.vouchers
                                             + [NextVoucher(d.book, "LB", date, text, lines)])
                  && r.value.bills == d.bills[id := Bill(bill.cost, bill.net, bill.code, bill.date, Paid, amount)]
                  && r.value.owner == d.owner + [Some(id)])
  {
    PostKeepsBooks(d.book, "LB", date, text, BillPayment(d.bills[id], account, amount).value);
  }
}
