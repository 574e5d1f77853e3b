/** A VAT code the entry does not know: the invoice is finalized and paid in full, and
    its own vouchers still leave a balance on 1510. */
module UnknownCode {
  import opened Prelude
  import opened Ledger
  import Books
  import opened Moms
  import opened Aggregates
  import opened Invoicing
  import opened Receivables
  import ReceivablesProof

  /** Two lines of 100 kronor, one at 25 % and one with an empty code. */
  function Doc(): Document {
    Document("SEK", PPM, [Item(1000, 100_00, SE25), Item(1000, 100_00, OtherCode(""))])
  }

  function Lines(): seq<Priced> {
    [Priced(SE25, 100_00, 25_00), Priced(OtherCode(""), 100_00, 0)]
  }

  lemma {:induction false} DocPrices()
    ensures Prices(Doc().items) == Lines()
  {
    var items := Doc().items;
    assert items[..1] == [items[0]] && [items[0]][..0] == [];
    assert PriceOf(items[0]) == Lines()[0] && PriceOf(items[1]) == Lines()[1];
    assert Prices(items[..1]) == [Lines()[0]];
  }

  lemma {:induction false} Identity(x: int)
    requires 0 <= x <= 1_000_000
    ensures Converter(RateOf(Doc()))(x) == x
  {
    RoundedExact(x, PPM);
  }

  lemma {:induction false} LineSums()
    ensures Codes(Lines()) == {SE25, OtherCode("")}
    ensures NetFor(Lines(), SE25) == 100_00 && VatFor(Lines(), SE25) == 25_00
    ensures NetFor(Lines(), OtherCode("")) == 100_00 && VatFor(Lines(), OtherCode("")) == 0
  {
    var ps := Lines();
    assert ps[..1] == [ps[0]] && [ps[0]][..0] == [];
  }

  lemma {:induction false} DocShares()
    ensures CodeShare(Lines(), Converter(RateOf(Doc())), SE25) == 125_00
    ensures CodeShare(Lines(), Converter(RateOf(Doc())), OtherCode("")) == 100_00
    ensures NetSek(Lines(), Converter(RateOf(Doc())), SE25) == 100_00
    ensures VatSek(Lines(), Converter(RateOf(Doc())), SE25) == 25_00
  {
    LineSums();
    Identity(100_00);
    Identity(25_00);
    Identity(0);
  }

  /** The entry debits 125 kronor where the gross is 225. */
  lemma {:induction false} GrossExceedsEntry()
    ensures EntryLines(Doc()) == [Debit("1510", 125_00), Line("3001", 0, 100_00, "SE25"), Credit("2611", 25_00)]
    ensures Receivable(Doc()) == 125_00 && UnknownShares(Doc()) == 100_00 && Gross(Doc()) == 225_00
  {
    var ps, sek := Lines(), Converter(RateOf(Doc()));
    DocPrices();
    LineSums();
    DocShares();
    OnlyFirst(ps, sek);
    assert CodeLines(ps, sek, SE25) == [Line("3001", 0, 100_00, "SE25"), Credit("2611", 25_00)];
    OnlyUnknown(ps, sek);
    GrossIsReceivablePlusUnknown(Doc());
  }

  /** Of the codes in order only the first occurs. */
  lemma {:induction false} OnlyFirst(ps: seq<Priced>, sek: int -> int)
    requires Codes(ps) == {SE25, OtherCode("")}
    ensures Booked(ps, sek, CODE_ORDER) == CodeShare(ps, sek, SE25)
    ensures SalesLines(ps, sek, CODE_ORDER) == CodeLines(ps, sek, SE25)
  {
    var o := CODE_ORDER;
    assert o[..4][..3] == o[..3] && o[..3][..2] == o[..2] && o[..2][..1] == o[..1] && o[..1][..0] == [];
    Skipped(ps, sek, o);
    Skipped(ps, sek, o[..4]);
    Skipped(ps, sek, o[..3]);
    Skipped(ps, sek, o[..2]);
    assert SalesLines(ps, sek, o[..1]) == [] + CodeLines(ps, sek, SE25);
  }

  lemma {:induction false} Skipped(ps: seq<Priced>, sek: int -> int, codes: seq<Code>)
    requires codes != [] && codes[|codes| - 1] !in Codes(ps)
    ensures Booked(ps, sek, codes) == Booked(ps, sek, codes[..|codes| - 1])
    ensures SalesLines(ps, sek, codes) == SalesLines(ps, sek, codes[..|codes| - 1])
  {
  }

  lemma {:induction false} OnlyUnknown(ps: seq<Priced>, sek: int -> int)
    requires Codes(ps) == {SE25, OtherCode("")}
    ensures SumOver(Codes(ps) - KNOWN, ShareAt(ps, sek)) == CodeShare(ps, sek, OtherCode(""))
  {
    var s := Codes(ps) - KNOWN;
    assert s == {OtherCode("")};
    SumTake(s, ShareAt(ps, sek), OtherCode(""));
    assert s - {OtherCode("")} == {};
  }

  predicate Charts(b: Books.Book) {
    "1510" in b.accounts && "3001" in b.accounts && "2611" in b.accounts && "1930" in b.accounts
  }

  lemma {:induction false} EntryPosts(b: Books.Book, date: int, text: string, ls: seq<Line>)
    requires b.vouchers == [] && b.lock.None? && Charts(b)
    requires ls == [Debit("1510", 125_00), Line("3001", 0, 100_00, "SE25"), Credit("2611", 25_00)]
    ensures Books.Post(b, "F", date, text, ls).Ok?
  {
    NetOfThree(ls[0], ls[1], ls[2], All);
    Books.PostKeepsBooks(b, "F", date, text, ls);
  }

  lemma {:induction false} DocPosts(b: Books.Book, date: int, text: string)
    requires b.vouchers == [] && b.lock.None? && Charts(b)
    ensures Books.Post(b, "F", date, text, EntryLines(Doc())).Ok?
    ensures Books.Post(b, "F", date, text, EntryLines(Doc())).value.accounts == b.accounts
    ensures Books.Post(b, "F", date, text, EntryLines(Doc())).value.lock.None?
  {
    GrossExceedsEntry();
    EntryPosts(b, date, text, EntryLines(Doc()));
  }

  /** The desk once the document is created and finalized. */
  lemma {:induction false} Booked125(b: Books.Book, date: int, text: string) returns (d: Desk)
    requires b.vouchers == [] && b.lock.None? && Charts(b)
    ensures After(After(ReceivablesProof.Opened(b), CreateStep(Doc())), FinalizeStep(0, date, text)) == d
    ensures Kept(d) && Reconciled(d, RECEIVABLES) && d.book.accounts == b.accounts && d.book.lock.None?
    ensures d.invoices == [MarkFinalized(NewInvoice(Doc(), None), 0)]
    ensures EntryOf(d, d.invoices[0]) == EntryLines(Doc())
  {
    var d1 := Create(ReceivablesProof.Opened(b), Doc(), None);
    ReceivablesProof.OpenedKept(b, RECEIVABLES);
    ReceivablesProof.CreateKeeps(ReceivablesProof.Opened(b), Doc(), None, RECEIVABLES);
    DocPosts(b, date, text);
    ReceivablesProof.FinalizeKeeps(d1, 0, date, text, RECEIVABLES);
    d := Finalize(d1, 0, date, text).value;
  }

  /** One ordinary invoice, paid, whose vouchers leave minus 100 kronor on 1510. */
  ghost predicate Uncleared(d: Desk) {
    && |d.invoices| == 1 && d.invoices[0].status == Paid && d.invoices[0].credits.None?
    && |d.owner| == |d.book.vouchers| && OwnNet(d.book.vouchers, d.owner, 0, One("1510")) == -100_00
  }

  /** Created, finalized and paid its gross on an empty book: the invoice is ordinary
      and paid, and minus 100 kronor stay on 1510. */
  lemma {:induction false} PaidButNotCleared(b: Books.Book, date: int, text: string)
    requires b.vouchers == [] && b.lock.None? && Charts(b)
    ensures var steps := [CreateStep(Doc()), FinalizeStep(0, date, text), PayStep(0, date, "1930", 225_00, text)];
            Uncleared(Run(ReceivablesProof.Opened(b), steps))
  {
    var d2 := Booked125(b, date, text);
    LeftUncleared(d2, date, text);
    ThreeSteps(ReceivablesProof.Opened(b), CreateStep(Doc()), FinalizeStep(0, date, text),
               PayStep(0, date, "1930", 225_00, text));
  }

  lemma {:induction false} LeftUncleared(d: Desk, date: int, text: string)
    requires Kept(d) && Reconciled(d, RECEIVABLES) && "1930" in d.book.accounts && d.book.lock.None?
    requires d.invoices == [MarkFinalized(NewInvoice(Doc(), None), 0)]
    ensures Uncleared(After(d, PayStep(0, date, "1930", 225_00, text)))
  {
    GrossExceedsEntry();
    ReceivablesProof.UnknownCodesStayUncleared(d, 0, date, "1930", text);
  }

  lemma {:induction false} ThreeSteps(d: Desk, r: Step, s: Step, t: Step)
    ensures Run(d, [r, s, t]) == After(After(After(d, r), s), t)
  {
    assert [r, s, t][1..] == [s, t] && [s, t][1..] == [t] && [t][1..] == [];
    assert Run(After(d, r), [s, t]) == Run(After(After(d, r), s), [t]);
    assert Run(After(After(d, r), s), [t]) == Run(After(After(After(d, r), s), t), []);
  }
}
