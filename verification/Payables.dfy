/** The supplier ledger: bills are booked with their VAT and paid in full. */
module Payables {
  import opened Prelude
  import opened Ledger
  import Books
  import opened Moms
  import opened Receivables
  import ReceivablesProof
  import Runs

  /** A supplier invoice. `paid` is what the bank moved when it was settled. */
  datatype Bill = Bill(cost: string, net: int, code: PurchaseCode, date: int, status: Status, paid: int)

  /** The books, the bills, and for every voucher the bill that posted it. */
  datatype Ledgers = Ledgers(book: Books.Book, bills: seq<Bill>, owner: seq<Option<nat>>)

  const PAYABLES := "2440"

  function Owed(bill: Bill): int {
    Payable(bill.net, bill.code)
  }

  /** The net column holds int64. */
  function CreateBill(d: Ledgers, cost: string, net: int, code: PurchaseCode, date: int): Result<Ledgers, Problem> {
    if net <= 0 then Err(NetNotPositive)
    else if !Fits(net) then Err(OutOfRange)
    else Ok(d.(bills := d.bills + [Bill(cost, net, code, date, Draft, 0)]))
  }

  function FinalizeBill(d: Ledgers, id: nat, text: string): Result<Ledgers, Problem> {
    if id >= |d.bills| then Err(NoSuchInvoice)
    else if d.bills[id].status != Draft then Err(NotDraft)
    else
      var bill := d.bills[id];
      match Books.Post(d.book, "L", bill.date, text, PurchaseLines(bill.cost, bill.net, bill.code))
      case Err(why) => Err(Refused(why))
      case Ok(b) => Ok(Ledgers(b, d.bills[id := bill.(status := Finalized)], d.owner + [Some(id)]))
  }

  /** The whole debt is cleared; less than a krona of difference is rounded off and
      anything more is refused. */
  function BillPayment(bill: Bill, account: string, amount: int): Result<seq<Line>, Problem> {
    var diff := Minus64(Owed(bill), amount);
    if bill.status != Finalized then Err(NotFinalized)
    else if amount <= 0 || Size(diff) >= THRESHOLD then Err(PaymentMismatch)
    else Ok([Debit(PAYABLES, Owed(bill)), Credit(account, amount)] + RoundedOff(diff))
  }

  function RoundedOff(diff: int): seq<Line> {
    if diff > 0 then [Credit(ROUNDING, diff)] else if diff < 0 then [Debit(ROUNDING, Minus64(0, diff))] else []
  }

  function PayBill(d: Ledgers, id: nat, date: int, account: string, amount: int, text: string)
    : Result<Ledgers, Problem>
  {
    if id >= |d.bills| then Err(NoSuchInvoice)
    else match BillPayment(d.bills[id], account, amount)
      case Err(p) => Err(p)
      case Ok(lines) =>
        match Books.Post(d.book, "LB", date, text, lines)
        case Err(why) => Err(Refused(why))
        case Ok(b) => Ok(Ledgers(b, d.bills[id := d.bills[id].(status := Paid, paid := amount)], d.owner + [Some(id)]))
  }

  // ---- Runs ----

  datatype BillStep =
    | CreateOne(cost: string, net: int, code: PurchaseCode, date: int)
    | FinalizeOne(id: nat, text: string)
    | PayOne(id: nat, date: int, account: string, amount: int, text: string)
    | Other(step: Runs.Step)

  function OtherBooking(d: Ledgers, s: Runs.Step): Ledgers {
    var b := Runs.After(d.book, s);
    d.(book := b, owner := d.owner + Unowned(b.vouchers, |d.owner|))
  }

  function Else(r: Result<Ledgers, Problem>, d: Ledgers): Ledgers {
    match r case Ok(d') => d' case Err(_) => d
  }

  function AfterBill(d: Ledgers, s: BillStep): Ledgers {
    match s
    case CreateOne(cost, net, code, date) => Else(CreateBill(d, cost, net, code, date), d)
    case FinalizeOne(id, text) => Else(FinalizeBill(d, id, text), d)
    case PayOne(id, date, account, amount, text) => Else(PayBill(d, id, date, account, amount, text), d)
    case Other(step) => OtherBooking(d, step)
  }

  function RunBills(d: Ledgers, steps: seq<BillStep>): Ledgers
    decreases |steps|
  {
    if steps == [] then d else RunBills(AfterBill(d, steps[0]), steps[1..])
  }

  /** What a bill's own vouchers should leave on the debt and rounding accounts. */
  function BillOn(bill: Bill, x: string): int {
    match bill.status
    case Finalized => if x == PAYABLES then -Owed(bill) else 0
    case Paid => if x == PAYABLES then 0 else bill.paid - Owed(bill)
    case _ => 0
  }

  predicate Watched(x: string) {
    x == PAYABLES || x == ROUNDING
  }

  predicate BillSound(bill: Bill) {
    && 0 < bill.net <= MAX_INT64 && bill.status != Credited
    && (bill.status != Draft ==> 0 < Owed(bill) <= MAX_INT64)
    && (bill.status == Paid ==> Abs(Owed(bill) - bill.paid) < THRESHOLD)
  }

  predicate Spares(bill: Bill, x: string) {
    bill.cost != x || IsReverseCharge(bill.code)
  }

  ghost predicate BillsKept(d: Ledgers, x: string) {
    && Books.WellKept(d.book) && |d.owner| == |d.book.vouchers| && OwnersExist(d.owner, |d.bills|)
    && (forall i :: 0 <= i < |d.bills| ==> BillSound(d.bills[i]) && Spares(d.bills[i], x))
    && (forall i :: 0 <= i < |d.bills| ==> OwnNet(d.book.vouchers, d.owner, i, One(x)) == BillOn(d.bills[i], x))
  }

  predicate AdmissibleBill(s: BillStep, x: string) {
    && (s.CreateOne? ==> s.cost != x || IsReverseCharge(s.code))
    && (s.PayOne? ==> s.account != x)
  }

  // ---- What one bill's vouchers do ----

  lemma {:induction false} FinalizeEffect(bill: Bill, x: string)
    requires Watched(x) && Spares(bill, x) && Fits(bill.net)
    ensures NetOf(PurchaseLines(bill.cost, bill.net, bill.code), One(x)) == BillOn(bill.(status := Finalized), x)
  {
    if x == PAYABLES {
      PurchaseBooksPayable(bill.cost, bill.net, bill.code);
    } else {
      NetOfAbsent(PurchaseLines(bill.cost, bill.net, bill.code), One(x));
    }
  }

  lemma {:induction false} OwedFits(bill: Bill)
    requires Postable(PurchaseLines(bill.cost, bill.net, bill.code))
    ensures 0 < Owed(bill) <= MAX_INT64
  {
    var ls := PurchaseLines(bill.cost, bill.net, bill.code);
    var k := if |ls| == 3 then 2 else 1;
    LinesWithinTotal(ls, k);
    assert ls[k] == Credit("2440", Owed(bill));
    assert OneSided(ls[k]);
  }

  lemma {:induction false} BillPaymentEffect(bill: Bill, account: string, amount: int, x: string)
    requires Watched(x) && account != x && Fits(amount) && BillPayment(bill, account, amount).Ok?
             && 0 < Owed(bill) <= MAX_INT64
    ensures Abs(Owed(bill) - amount) < THRESHOLD
    ensures NetOf(BillPayment(bill, account, amount).value, One(x))
            == BillOn(bill.(status := Paid, paid := amount), x) - BillOn(bill, x)
  {
    var diff := Minus64(Owed(bill), amount);
    assert diff == Owed(bill) - amount;
    var ls := BillPayment(bill, account, amount).value;
    if diff == 0 {
      assert ls == [ls[0], ls[1]];
      NetOfTwo(ls[0], ls[1], One(x));
    } else {
      assert ls == [ls[0], ls[1], ls[2]];
      NetOfThree(ls[0], ls[1], ls[2], One(x));
    }
  }

  // ---- Steps ----

  /** A voucher of bill id was posted and its row replaced. */
  ghost predicate BillPostedFor(d: Ledgers, d': Ledgers, v: Voucher, id: nat, bill: Bill) {
    && id < |d.bills| && Books.WellKept(d'.book) && d'.book.vouchers == d.book.vouchers + [v]
    && d'.bills == d.bills[id := bill] && d'.owner == d.owner + [Some(id)]
  }

  /** What a bill's own vouchers leave, once one more is posted. */
  lemma {:induction false} OwnOnceMore(d: Ledgers, d': Ledgers, v: Voucher, id: nat, bill: Bill, i: nat, x: string)
    requires BillPostedFor(d, d', v, id, bill) && |d.owner| == |d.book.vouchers|
    ensures OwnNet(d'.book.vouchers, d'.owner, i, One(x))
            == OwnNet(d.book.vouchers, d.owner, i, One(x)) + if i == id then NetOf(v.lines, One(x)) else 0
  {
    assert d'.book.vouchers[..|d.book.vouchers|] == d.book.vouchers && d'.owner[..|d.owner|] == d.owner;
  }

  lemma {:induction false} BillPosted(d: Ledgers, d': Ledgers, v: Voucher, id: nat, bill: Bill, x: string)
    requires BillsKept(d, x) && BillPostedFor(d, d', v, id, bill) && BillSound(bill) && Spares(bill, x)
    requires NetOf(v.lines, One(x)) == BillOn(bill, x) - BillOn(d.bills[id], x)
    ensures BillsKept(d', x)
  {
    assert OwnersExist(d'.owner, |d'.bills|);
    forall i | 0 <= i < |d.bills| ensures OwnNet(d'.book.vouchers, d'.owner, i, One(x)) == BillOn(d'.bills[i], x) {
      OwnOnceMore(d, d', v, id, bill, i, x);
    }
  }

  lemma {:induction false} CreateBillKeeps(d: Ledgers, bill: Bill, x: string)
    requires BillsKept(d, x) && bill.status == Draft && 0 < bill.net <= MAX_INT64 && Spares(bill, x)
    ensures BillsKept(d.(bills := d.bills + [bill]), x)
  {
    ReceivablesProof.OwnNetOthers(d.book.vouchers, d.owner, 0, |d.bills|, One(x));
  }

  lemma {:induction false} FinalizeBillKeeps(d: Ledgers, id: nat, text: string, x: string)
    requires BillsKept(d, x) && Watched(x) && FinalizeBill(d, id, text).Ok?
    ensures BillsKept(FinalizeBill(d, id, text).value, x)
  {
    var bill := d.bills[id];
    var v := ReceivablesProof.PostGrows(d.book, "L", bill.date, text, PurchaseLines(bill.cost, bill.net, bill.code));
    FinalizeEffect(bill, x);
    OwedFits(bill);
    BillPosted(d, FinalizeBill(d, id, text).value, v, id, bill.(status := Finalized), x);
  }

  lemma {:induction false} PayBillKeeps(d: Ledgers, id: nat, date: int, account: string, amount: int, text: string,
      x: string)
    requires BillsKept(d, x) && Watched(x) && account != x && PayBill(d, id, date, account, amount, text).Ok?
    ensures BillsKept(PayBill(d, id, date, account, amount, text).value, x)
  {
    var bill := d.bills[id];
    var lines := BillPayment(bill, account, amount).value;
    var v := ReceivablesProof.PostGrows(d.book, "LB", date, text, lines);
    LinesWithinTotal(lines, 1);
    BillPaymentEffect(bill, account, amount, x);
    BillPosted(d, PayBill(d, id, date, account, amount, text).value, v, id, bill.(status := Paid, paid := amount), x);
  }

  lemma {:induction false} OtherBookingKeeps(d: Ledgers, s: Runs.Step, x: string)
    requires BillsKept(d, x)
    ensures BillsKept(OtherBooking(d, s), x)
  {
    var d' := OtherBooking(d, s);
    Runs.StepKeepsBooks(d.book, s);
    assert OwnersExist(d'.owner, |d'.bills|);
    forall i | 0 <= i < |d.bills| ensures OwnNet(d'.book.vouchers, d'.owner, i, One(x)) == BillOn(d'.bills[i], x) {
      ReceivablesProof.OwnNetOthers(d'.book.vouchers, d'.owner, |d.owner|, i, One(x));
      assert d'.owner[..|d.owner|] == d.owner;
    }
  }

  /** Over every run mixed with any other bookkeeping, a bill's own vouchers leave on
      2440 minus what is owed until it is paid and exactly nothing after, and on 3740
      exactly the rounding, which is below a krona. */
  lemma {:induction false} RunKeepsBills(d: Ledgers, steps: seq<BillStep>, x: string)
    requires BillsKept(d, x) && Watched(x) && forall k :: 0 <= k < |steps| ==> AdmissibleBill(steps[k], x)
    ensures BillsKept(RunBills(d, steps), x)
    decreases |steps|
  {
    if steps != [] {
      match steps[0] {
        case CreateOne(cost, net, code, date) =>
          if 0 < net <= MAX_INT64 {
            CreateBillKeeps(d, Bill(cost, net, code, date, Draft, 0), x);
          }
        case FinalizeOne(id, text) =>
          if FinalizeBill(d, id, text).Ok? {
            FinalizeBillKeeps(d, id, text, x);
          }
        case PayOne(id, date, account, amount, text) =>
          if PayBill(d, id, date, account, amount, text).Ok? {
            PayBillKeeps(d, id, date, account, amount, text, x);
          }
        case Other(step) => OtherBookingKeeps(d, step, x);
      }
      RunKeepsBills(AfterBill(d, steps[0]), steps[1..], x);
    }
  }

  /** The same, read off a company that starts without bills: on 2440 the debt stands
      until the payment clears it exactly, and 3740 takes exactly the difference. */
  lemma {:induction false} BillAgrees(b: Books.Book, steps: seq<BillStep>, i: nat)
    requires Books.WellKept(b)
    requires forall k :: 0 <= k < |steps| ==> AdmissibleBill(steps[k], PAYABLES) && AdmissibleBill(steps[k], ROUNDING)
    requires i < |RunBills(NoBills(b), steps).bills|
    ensures var d := RunBills(NoBills(b), steps); var bill := d.bills[i];
            && |d.owner| == |d.book.vouchers|
            && OwnNet(d.book.vouchers, d.owner, i, One("2440"))
                 == (if bill.status == Finalized then -Payable(bill.net, bill.code) else 0)
            && OwnNet(d.book.vouchers, d.owner, i, One("3740"))
                 == (if bill.status == Paid then bill.paid - Payable(bill.net, bill.code) else 0)
            && (bill.status == Paid ==> Abs(bill.paid - Payable(bill.net, bill.code)) < 100)
  {
    assert OwnersExist(NoBills(b).owner, 0);
    RunKeepsBills(NoBills(b), steps, PAYABLES);
    RunKeepsBills(NoBills(b), steps, ROUNDING);
  }

  function NoBills(b: Books.Book): Ledgers {
    Ledgers(b, [], seq(|b.vouchers|, _ => None))
  }

  // ---- The store's transactions ----

  class SupplierDesk {
    const company: Books.Company
    var bills: seq<Bill>
    ghost var owner: seq<Option<nat>>

    constructor (company: Books.Company)
      ensures this.company == company && Current() == NoBills(company.Current())
    {
      this.company := company;
      bills, owner := [], seq(|company.vouchers|, _ => None);
    }

    ghost function Current(): Ledgers
      reads this, company
    {
      Ledgers(company.Current(), bills, owner)
    }

    method FinalizeSupplierInvoice(id: nat, text: string) returns (problem: Option<Problem>)
      requires id < |bills| ==> Fits(bills[id].net)
      modifies this, company`vouchers
      ensures match FinalizeBill(old(Current()), id, text)
              case Ok(d) => Current() == d && problem == None
              case Err(p) => Current() == old(Current()) && problem == Some(p)
    {
      if id >= |bills| {
        return Some(NoSuchInvoice);
      }
      var bill := bills[id];
      if bill.status != Draft {
        return Some(NotDraft);
      }
      PurchaseBooksPayable(bill.cost, bill.net, bill.code);
      var posted := company.PostVerification("L", bill.date, text, PurchaseLines(bill.cost, bill.net, bill.code));
      if posted.Err? {
        return Some(Refused(posted.error));
      }
      bills := bills[id := bill.(status := Finalized)];
      owner := owner + [Some(id)];
      return None;
    }

    method RecordSupplierPayment(id: nat, date: int, account: string, amount: int, text: string)
      returns (problem: Option<Problem>)
      requires Fits(amount) && (id < |bills| ==> Fits(bills[id].net))
      modifies this, company`vouchers
      ensures match PayBill(old(Current()), id, date, account, amount, text)
              case Ok(d) => Current() == d && problem == None
              case Err(p) => Current() == old(Current()) && problem == Some(p)
    {
      if id >= |bills| {
        return Some(NoSuchInvoice);
      }
      var bill := bills[id];
      if bill.status != Finalized {
        return Some(NotFinalized);
      }
      var gross := Payable(bill.net, bill.code);
      if amount <= 0 {
        return Some(PaymentMismatch);
      }
      var lines := [Debit(PAYABLES, gross), Credit(account, amount)];
      var diff := Minus64(gross, amount);
      if diff != 0 {
        if Size(diff) >= THRESHOLD {
          return Some(PaymentMismatch);
        }
        if diff > 0 {
          lines := lines + [Credit(ROUNDING, diff)];
        } else {
          lines := lines + [Debit(ROUNDING, Minus64(0, diff))];
        }
      } else {
        assert lines + [] == lines;
      }
      assert BillPayment(bill, account, amount) == Ok(lines);
      var posted := company.PostVerification("LB", date, text, lines);
      if posted.Err? {
        return Some(Refused(posted.error));
      }
      bills := bills[id := bill.(status := Paid, paid := amount)];
      owner := owner + [Some(id)];
      return None;
    }
  }
}
