/** The tool that lets an assistant post a voucher, under a per-write ceiling. */
module Ceiling {
  import opened Prelude
  import opened Ledger
  import opened Books

  datatype Reply = OverCeiling | Previewed | Rejected(why: Refusal) | Posted(number: int)

  predicate Within(ceiling: int, ore: int) {
    !(ceiling > 0 && ore > ceiling)
  }

  /** What the tool adds up: int64 debits, wrapping. */
  function ToolTotal(lines: seq<Line>): int {
    Wrap(TotalDebit(lines))
  }

  function PostUnderCeiling(b: Book, ceiling: int, series: string, date: int, text: string, lines: seq<Line>,
      dryRun: bool): (Book, Reply) {
    if !Within(ceiling, ToolTotal(lines)) then (b, OverCeiling)
    else if dryRun then (b, if Verdict(lines).Some? then Rejected(Invalid(Verdict(lines).value)) else Previewed)
    else match Post(b, series, date, text, lines)
      case Err(why) => (b, Rejected(why))
      case Ok(b') => (b', Posted(LastNumber(b.vouchers, series) + 1))
  }

  method RunPostVerification(company: Company, ceiling: int, series: string, date: int, text: string,
      lines: seq<Line>, dryRun: bool)
    returns (reply: Reply)
    requires LinesFit(lines)
    modifies company`vouchers
    ensures company.Current() == PostUnderCeiling(old(company.Current()), ceiling, series, date, text, lines, dryRun).0
    ensures reply == PostUnderCeiling(old(company.Current()), ceiling, series, date, text, lines, dryRun).1
  {
    var debitTotal := 0;
    for i := 0 to |lines|
      invariant debitTotal == ToolTotal(lines[..i])
      invariant company.Current() == old(company.Current())
    {
      assert lines[..i + 1][..i] == lines[..i];
      WrapAdd(TotalDebit(lines[..i]), lines[i].debit);
      debitTotal := Wrap(debitTotal + lines[i].debit);
    }
    assert lines[..|lines|] == lines;
    if ceiling > 0 && debitTotal > ceiling {
      return OverCeiling;
    }
    if dryRun {
      var fault := Validate(lines);
      return if fault.Some? then Rejected(Invalid(fault.value)) else Previewed;
    }
    var posted := company.PostVerification(series, date, text, lines);
    match posted {
      case Err(why) => return Rejected(why);
      case Ok(number) => return Posted(number);
    }
  }

  /** Whatever the tool's own sum does, nothing is posted or previewed whose true
      debit total exceeds a positive ceiling; and an entry within it that the books
      would take is posted. */
  lemma {:induction false} CeilingHolds(b: Book, ceiling: int, series: string, date: int, text: string,
      lines: seq<Line>, dryRun: bool)
    requires ceiling > 0
    ensures var (b', reply) := PostUnderCeiling(b, ceiling, series, date, text, lines, dryRun);
            && (reply.Posted? || reply.Previewed? ==> Postable(lines) && TotalDebit(lines) <= ceiling)
            && (reply.Posted? <==> !dryRun && Post(b, series, date, text, lines).Ok? && TotalDebit(lines) <= ceiling)
            && (reply.Posted? ==> b' == Post(b, series, date, text, lines).value)
            && (!reply.Posted? ==> b' == b)
  {
    VerdictAccepts(lines);
    if Postable(lines) {
      TotalsNonNegative(lines);
    }
  }

  /** What the tool answers: over the ceiling exactly when there is one and its own sum
      exceeds it; otherwise a dry run says whether the entry is valid, and a real one
      does what posting does. */
  lemma {:induction false} ToolReplies(b: Book, ceiling: int, series: string, date: int, text: string,
      lines: seq<Line>, dryRun: bool)
    requires WellKept(b)
    ensures var (b', reply) := PostUnderCeiling(b, ceiling, series, date, text, lines, dryRun);
            var posted := Post(b, series, date, text, lines);
            && (reply == OverCeiling <==> ceiling > 0 && Wrap(TotalDebit(lines)) > ceiling)
            && (reply != OverCeiling && dryRun ==>
                  b' == b && (reply == Previewed <==> Postable(lines))
                    && (reply == Previewed || (reply.Rejected? && reply.why.Invalid?)))
            && (reply != OverCeiling && !dryRun && posted.Ok? ==>
                  b' == posted.value && reply == Posted(CountSeries(b.vouchers, series) + 1))
            && (reply != OverCeiling && !dryRun && posted.Err? ==> b' == b && reply == Rejected(posted.error))
  {
    VerdictAccepts(lines);
    LastIsCount(b.vouchers, series);
  }

  /** The tool's sum alone is no guard: these lines pass any ceiling, with a total of
      2^64, and only validation stops them. */
  lemma {:induction false} ToolSumCanWrap(b: Book, ceiling: int, series: string, date: int, text: string)
    requires ceiling > 0
    ensures var half := 0x4000_0000_0000_0000;
            var d, c := Debit("1930", half), Credit("2010", half);
            var lines := [d, d, d, d, c, c, c, c];
            && LinesFit(lines) && TotalDebit(lines) == TotalCredit(lines) == TWO_64 && Within(ceiling, ToolTotal(lines))
            && PostUnderCeiling(b, ceiling, series, date, text, lines, false) == (b, Rejected(Invalid(Overflow)))
  {
    var half := 0x4000_0000_0000_0000;
    var d, c := Debit("1930", half), Credit("2010", half);
    var debits, lines := [d, d, d, d], [d, d, d, d, c, c, c, c];
    NetOfFour(d, d, d, d, All);
    NetOfFour(c, c, c, c, All);
    TotalsAppend(debits, [c, c, c, c]);
    assert lines == debits + [c, c, c, c];
    assert Wrap(TWO_64) == 0;
    SecondDebitOverflows(d, lines);
  }

  lemma {:induction false} SecondDebitOverflows(d: Line, lines: seq<Line>)
    requires OneSided(d) && d.debit == 0x4000_0000_0000_0000 && |lines| >= 2 && lines[0] == lines[1] == d
    ensures Verdict(lines) == Some(Overflow)
  {
    assert lines[..2] == [d, d] && [d, d][..1] == [d] && [d][..0] == [];
    NetOfTwo(d, d, All);
    NetOfOne(d, All);
    assert FirstFault([d]).None?;
    assert FirstFault([d, d]) == Some(Overflow);
    FaultPersists(lines, 2);
  }
}
