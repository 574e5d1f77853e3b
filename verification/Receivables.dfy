/** The customer ledger: invoices are finalized, paid in instalments and credited,
    each step posting to the general ledger. */
module Receivables {
  import opened Prelude
  import opened Ledger
  import Books
  import Aggregates
  import Invoicing
  import Runs

  datatype Status = Draft | Finalized | Paid | Credited

  /** An invoice row. `verification` is the voucher that booked it, `payment` the one
      that settled it, as positions among the posted vouchers; a credit note names
      the invoice it credits. */
  datatype Invoice = Invoice(
    doc: Invoicing.Document, status: Status, amountPaid: int,
    verification: Option<nat>, payment: Option<nat>, credits: Option<nat>)

  /** The books, the invoices, and for every voucher the invoice that posted it. */
  datatype Desk = Desk(book: Books.Book, invoices: seq<Invoice>, owner: seq<Option<nat>>)

  datatype Problem =
    | NoSuchInvoice | NetNotPositive | NotDraft | NotFinalized
    | PaymentMismatch | OutOfRange | Refused(why: Books.Refusal)

  const RECEIVABLES := "1510"
  const ROUNDING := "3740"
  const GAIN := "3960"
  const LOSS := "7960"
  const THRESHOLD: int := 100

  /** A document as its row holds it: no currency is SEK, and no rate is one to one. */
  function Stored(doc: Invoicing.Document): Invoicing.Document {
    doc.(currency := if doc.currency == "" then "SEK" else doc.currency,
         ratePpm := if doc.ratePpm == 0 then Invoicing.PPM else doc.ratePpm)
  }

  function NewInvoice(doc: Invoicing.Document, credits: Option<nat>): Invoice {
    Invoice(Stored(doc), Draft, 0, None, None, credits)
  }

  function Create(d: Desk, doc: Invoicing.Document, credits: Option<nat>): Desk {
    d.(invoices := d.invoices + [NewInvoice(doc, credits)])
  }

  // ---- Finalize ----

  /** The row once voucher books it. */
  function MarkFinalized(inv: Invoice, voucher: nat): Invoice {
    inv.(status := Finalized, verification := Some(voucher))
  }

  function Finalize(d: Desk, id: nat, date: int, text: string): Result<Desk, Problem> {
    if id >= |d.invoices| then Err(NoSuchInvoice)
    else if d.invoices[id].status != Draft then Err(NotDraft)
    else match Books.Post(d.book, "F", date, text, Invoicing.EntryLines(d.invoices[id].doc))
      case Err(why) => Err(Refused(why))
      case Ok(b) =>
        Ok(Desk(b, d.invoices[id := MarkFinalized(d.invoices[id], |d.book.vouchers|)], d.owner + [Some(id)]))
  }

  // ---- Payment ----

  datatype Payment = Payment(lines: seq<Line>, settles: bool)

  predicate IsSek(inv: Invoice) {
    inv.doc.currency == "SEK"
  }

  /** A foreign invoice is settled at once; the difference is a currency result. */
  function ForeignPayment(paid: int, gross: int, account: string, amount: int): Result<Payment, Problem> {
    if paid != 0 then Err(PaymentMismatch)
    else
      var diff := Minus64(amount, gross);
      Ok(Payment([Debit(account, amount), Credit(RECEIVABLES, gross)] + DifferenceLines(diff), true))
  }

  function DifferenceLines(diff: int): seq<Line> {
    if diff > 0 then [Credit(GAIN, diff)] else if diff < 0 then [Debit(LOSS, Minus64(0, diff))] else []
  }

  /** A SEK invoice takes instalments; a last difference below one krona is rounded
      off, a larger overpayment is refused. */
  function SekPayment(paid: int, gross: int, account: string, amount: int): Result<Payment, Problem> {
    var residual := Minus64(gross, Plus64(paid, amount));
    var lines := [Debit(account, amount), Credit(RECEIVABLES, amount)];
    if residual == 0 then Ok(Payment(lines, true))
    else if Size(residual) < THRESHOLD then Ok(Payment(lines + RoundingLines(residual), true))
    else if residual < 0 then Err(PaymentMismatch)
    else Ok(Payment(lines, false))
  }

  /** absAmount, which leaves MinInt64 negative. */
  function Size(x: int): int {
    if x < 0 then Minus64(0, x) else x
  }

  function RoundingLines(residual: int): seq<Line> {
    if residual > 0 then [Credit(RECEIVABLES, residual), Debit(ROUNDING, residual)]
    else [Debit(RECEIVABLES, Minus64(0, residual)), Credit(ROUNDING, Minus64(0, residual))]
  }

  function PaymentOf(sek: bool, paid: int, gross: int, account: string, amount: int): Result<Payment, Problem> {
    if sek then SekPayment(paid, gross, account, amount) else ForeignPayment(paid, gross, account, amount)
  }

  function PaymentFor(inv: Invoice, gross: int, account: string, amount: int): Result<Payment, Problem> {
    if inv.status != Finalized then Err(NotFinalized)
    else if amount <= 0 then Err(PaymentMismatch)
    else PaymentOf(IsSek(inv), inv.amountPaid, gross, account, amount)
  }

  function AfterPayment(inv: Invoice, amount: int, settles: bool, voucher: nat): Invoice {
    var counted := inv.(amountPaid := inv.amountPaid + amount);
    if settles then counted.(status := Paid, payment := Some(voucher)) else counted
  }

  ghost function Pay(d: Desk, id: nat, date: int, account: string, amount: int, text: string): Result<Desk, Problem> {
    if id >= |d.invoices| then Err(NoSuchInvoice)
    else
      var inv := d.invoices[id];
      match PaymentFor(inv, Invoicing.Gross(inv.doc), account, amount)
      case Err(p) => Err(p)
      case Ok(pay) =>
        match Books.Post(d.book, "B", date, text, pay.lines)
        case Err(why) => Err(Refused(why))
        case Ok(b) =>
          // The amount_paid column holds int64 and refuses more.
          if !Fits(inv.amountPaid + amount) then Err(OutOfRange)
          else Ok(Desk(b, d.invoices[id := AfterPayment(inv, amount, pay.settles, |d.book.vouchers|)],
                       d.owner + [Some(id)]))
  }

  // ---- Credit ----

  function EntryOf(d: Desk, inv: Invoice): seq<Line> {
    if inv.verification.Some? && inv.verification.value < |d.book.vouchers|
    then d.book.vouchers[inv.verification.value].lines else []
  }

  /** The credit note is created first, in a transaction of its own; then the
      original's entry is reversed. A refusal leaves the draft credit note behind. */
  function IssueCredit(d: Desk, id: nat, date: int, text: string): (Desk, Option<Problem>) {
    if id >= |d.invoices| then (d, Some(NoSuchInvoice))
    else if d.invoices[id].status != Finalized && d.invoices[id].status != Paid then (d, Some(NotFinalized))
    else
      var inv, note := d.invoices[id], |d.invoices|;
      var drafted := Create(d, inv.doc, Some(id));
      match Books.Post(d.book, "F", date, text, Reversed(EntryOf(d, inv)))
      case Err(why) => (drafted, Some(Refused(why)))
      case Ok(b) =>
        var noted := drafted.invoices[note := MarkFinalized(drafted.invoices[note], |d.book.vouchers|)];
        (Desk(b, noted[id := inv.(status := Credited)], d.owner + [Some(note)]), None)
  }

  // ---- Runs ----

  datatype Step =
    | CreateStep(doc: Invoicing.Document)
    | FinalizeStep(id: nat, date: int, text: string)
    | PayStep(id: nat, date: int, account: string, amount: int, text: string)
    | CreditStep(id: nat, date: int, text: string)
    | BooksStep(step: Runs.Step)

  function Unowned(vs: seq<Voucher>, from: nat): seq<Option<nat>> {
    seq(if |vs| >= from then |vs| - from else 0, _ => None)
  }

  /** Any other transaction over the books posts vouchers of no invoice. */
  function OtherWork(d: Desk, s: Runs.Step): Desk {
    var b := Runs.After(d.book, s);
    d.(book := b, owner := d.owner + Unowned(b.vouchers, |d.owner|))
  }

  /** A refused transaction changes nothing. */
  function Unless(r: Result<Desk, Problem>, d: Desk): Desk {
    match r case Ok(d') => d' case Err(_) => d
  }

  ghost function After(d: Desk, s: Step): Desk {
    match s
    case CreateStep(doc) => Create(d, doc, None)
    case FinalizeStep(id, date, text) => Unless(Finalize(d, id, date, text), d)
    case PayStep(id, date, account, amount, text) => Unless(Pay(d, id, date, account, amount, text), d)
    case CreditStep(id, date, text) => IssueCredit(d, id, date, text).0
    case BooksStep(step) => OtherWork(d, step)
  }

  ghost function Run(d: Desk, steps: seq<Step>): Desk
    decreases |steps|
  {
    if steps == [] then d else Run(After(d, steps[0]), steps[1..])
  }

  // ---- The sub-ledger ----

  /** Net of the vouchers that invoice i itself posted. */
  function OwnNet(vs: seq<Voucher>, owner: seq<Option<nat>>, i: nat, w: Accounts): int
    requires |vs| == |owner|
  {
    if vs == [] then 0
    else
      var n := |vs| - 1;
      OwnNet(vs[..n], owner[..n], i, w) + if owner[n] == Some(i) then NetOf(vs[n].lines, w) else 0
  }

  predicate IsSettled(inv: Invoice) {
    inv.payment.Some?
  }

  /** Gross less what was paid, in int64. */
  ghost function Owed(inv: Invoice): int {
    Minus64(Invoicing.Gross(inv.doc), inv.amountPaid)
  }

  /** What the payments of a settled invoice have credited to 1510 in all. */
  function ClearedAt(sek: bool, gross: int, paid: int): int {
    if sek then paid + Minus64(gross, paid) else gross
  }

  ghost function Cleared(inv: Invoice): int {
    ClearedAt(IsSek(inv), Invoicing.Gross(inv.doc), inv.amountPaid)
  }

  /** What payments have put on account x: the instalments while open; once settled,
      all that clears the receivable, with the difference on the account made for it. */
  function PaymentsAt(sek: bool, settled: bool, gross: int, paid: int, x: string): int {
    var owed := Minus64(gross, paid);
    if !settled then (if x == RECEIVABLES then -paid else 0)
    else if x == RECEIVABLES then -ClearedAt(sek, gross, paid)
    else if sek then (if x == ROUNDING then owed else 0)
    else if (x == GAIN && owed < 0) || (x == LOSS && owed > 0) then owed
    else 0
  }

  ghost function PaymentsOn(inv: Invoice, x: string): int {
    PaymentsAt(IsSek(inv), IsSettled(inv), Invoicing.Gross(inv.doc), inv.amountPaid, x)
  }

  predicate Tracked(x: string) {
    x == RECEIVABLES || x == ROUNDING || x == GAIN || x == LOSS
  }

  /** An entry that debits or credits exactly the receivable on 1510, and touches no
      account where payments book differences. */
  ghost predicate BooksReceivable(lines: seq<Line>, receivable: int) {
    && Postable(lines) && receivable > 0
    && (NetOf(lines, One(RECEIVABLES)) == receivable || NetOf(lines, One(RECEIVABLES)) == -receivable)
    && forall l :: l in lines ==> l.account == RECEIVABLES || Aggregates.IsSaleAccount(l.account)
  }

  ghost predicate EntryStands(d: Desk, i: nat)
    requires i < |d.invoices| && |d.owner| == |d.book.vouchers|
  {
    var inv := d.invoices[i];
    && inv.verification.Some? && inv.verification.value < |d.book.vouchers|
    && d.owner[inv.verification.value] == Some(i)
    && BooksReceivable(EntryOf(d, inv), Invoicing.Receivable(inv.doc))
    && (inv.credits.None? ==> NetOf(EntryOf(d, inv), One(RECEIVABLES)) == Invoicing.Receivable(inv.doc))
  }

  /** What the payments taken say about an invoice. */
  predicate Soundly(sek: bool, settled: bool, gross: int, paid: int) {
    && 0 <= paid <= MAX_INT64
    && (!settled && paid > 0 ==> sek && Minus64(gross, paid) >= THRESHOLD)
    && (settled && sek ==> Abs(Minus64(gross, paid)) < THRESHOLD)
    && (settled && !sek ==> gross > 0)
  }

  ghost predicate InvoiceKept(d: Desk, i: nat)
    requires i < |d.invoices| && |d.owner| == |d.book.vouchers|
  {
    var inv := d.invoices[i];
    && Soundly(IsSek(inv), IsSettled(inv), Invoicing.Gross(inv.doc), inv.amountPaid)
    && (inv.status == Draft ==> inv.verification.None? && !IsSettled(inv) && inv.amountPaid == 0)
    && (inv.status != Draft ==> EntryStands(d, i))
    && (inv.status == Finalized ==> !IsSettled(inv))
    && (inv.status == Paid ==> IsSettled(inv))
  }

  ghost predicate OwnersExist(owner: seq<Option<nat>>, count: nat) {
    forall k :: 0 <= k < |owner| && owner[k].Some? ==> owner[k].value < count
  }

  /** What every run keeps. */
  ghost predicate Kept(d: Desk) {
    && Books.WellKept(d.book) && |d.owner| == |d.book.vouchers| && OwnersExist(d.owner, |d.invoices|)
    && forall i :: 0 <= i < |d.invoices| ==> InvoiceKept(d, i)
  }

  /** Invoice i's own vouchers add up, on account x, to its entry and its payments. */
  ghost predicate ReconciledAt(d: Desk, i: nat, x: string)
    requires |d.owner| == |d.book.vouchers| && i < |d.invoices|
  {
    OwnNet(d.book.vouchers, d.owner, i, One(x))
    == NetOf(EntryOf(d, d.invoices[i]), One(x)) + PaymentsOn(d.invoices[i], x)
  }

  ghost predicate Reconciled(d: Desk, x: string)
    requires |d.owner| == |d.book.vouchers|
  {
    forall i :: 0 <= i < |d.invoices| ==> ReconciledAt(d, i, x)
  }

  /** Payments go to another account than the one looked at. */
  predicate Admissible(s: Step, x: string) {
    s.PayStep? ==> s.account != x
  }
}
