# Verified model of the Pare ledger

Pare is a double-entry ledger with invoices, supplier bills, bank reconciliation, SIE
transfer, a period lock, year-end closing and a hash-chained audit log on top of it. This
project models that logic in Dafny and proves what holds over every input, every run or
every interleaving. Nothing here runs the original program.

Amounts are öre. A date is the number YYYYMMDD, so the lock compares whole days. Go's int64
arithmetic is modelled as it is: sums, products, negations and divisions wrap and truncate
(`Prelude.Wrap`, `Prelude.TruncDiv`), and a query's sum that does not fit BIGINT fails. Store methods that change state are classes or methods proved against
a function of the old state; the theorems are about those functions, and over runs of them.
Every lemma turns Dafny's automatic induction off, so its body is its whole proof.

| file | what it holds |
|---|---|
| `Prelude.dfy` | options, results, int64 and Go division, reordered sequences |
| `Ledger.dfy`, `Reports.dfy`, `Statements.dfy`, `Books.dfy` | vouchers and validation; trial balances; income statement and balance sheet; the one way into the books |
| `YearEnd.dfy`, `Runs.dfy` | year-end closing; runs of whole transactions and the period lock |
| `Decimal.dfy`, `Sie.dfy`, `SieReading.dfy`, `SieRoundTrip.dfy` | numerals; SIE type 4 writer, tokenizer and parser; how any file is read; parsing what was written |
| `SieTransfer.dfy`, `SieExport.dfy`, `SieImport.dfy`, `SieTransferProof.dfy` | exporting books and importing a file; what an export holds; what any import books; the books that were moved |
| `BankAmounts.dfy`, `AmountShapes.dfy`, `BankClaims.dfy`, `BankDesk.dfy` | amount cells; exactly which are accepted and as what; concurrent booking of one bank transaction; the bank operations themselves |
| `Moms.dfy`, `VatRuns.dfy`, `UndoneClose.dfy` | VAT arithmetic and purchase entries; the declaration over whole runs; what undoing a year-end close does to it |
| `Aggregates.dfy`, `Invoicing.dfy` | lines summed per VAT code; invoice entries and the SEK gross |
| `Receivables.dfy`, `InvoiceRules.dfy`, `ReceivablesProof.dfy`, `InvoiceDesk.dfy`, `Matching.dfy`, `UnknownCode.dfy` | the customer sub-ledger, what each transaction posts and refuses, its proof, its transactions, payment matching, and one invoice that is paid but not cleared |
| `Payables.dfy`, `BillRules.dfy` | the supplier sub-ledger, and what each of its transactions posts and refuses |
| `AuditChain.dfy`, `Numbering.dfy`, `LockRaces.dfy` | concurrent audit writers and tampering; concurrent voucher numbering; the period lock under concurrency |
| `Backfill.dfy`, `Ceiling.dfy` | the document encryption loop; the assistant's posting tool |

## What the code does that its comments do not say

- `GrossSEK` counts VAT codes that the entry leaves out, and nothing checks a code. The two agree
  exactly when those shares add to nothing in int64 (`Invoicing.GrossIsReceivablePlusUnknown`), so
  not for the invoice of `UnknownCode.GrossExceedsEntry`.
- A paid invoice has cleared 1510 exactly when the shares of its unknown VAT codes come to nothing in
  int64, whatever its gross (`ReceivablesProof.PaidClearsIff`); so every one whose codes are among the
  five known ones has (`ReceivablesProof.ReceivableAgrees`). An invoice with another code can be paid
  in full and leave a credit on 1510 (`ReceivablesProof.UnknownCodesStayUncleared`;
  `UnknownCode.PaidButNotCleared` is a whole run that does).
- A credit note can be paid like an invoice: `RecordPayment` never looks at what it credits. Its
  vouchers then stand at minus the receivable and minus the gross again on 1510
  (`ReceivablesProof.CreditNotesCanBePaid`).
- `MarkBankTxnBooked` accepts `booking`, so an account voucher can be committed under an invoice
  booker's claim, and the transaction is then booked twice. That can happen exactly when an invoice
  booker and an account booker meet on it (`BankClaims.BooksOnceIff`). There is still at most one
  payment and at most one voucher.
- Rounding half away from zero gives the nearest integer exactly while neither the product nor the
  half added to it leaves int64 (`Moms.RoundedIsNearest`); an invoice entry balances exactly while
  the sum of its credits does (`Invoicing.EntryBalances`).
- `CloseFiscalYear` reads the year's balances before its transaction begins. What is posted for the
  year in between stays on the result accounts, and nothing else does
  (`YearEnd.CloseLeavesWhatCameBetween`).
- A posting reads the lock once. Every postable entry dated by L can be committed after a lock through L, if it
  read the lock before that was committed (`LockRaces.PostingOvertakesLock`). Nothing else gets in
  (`LockRaces.OnlyEarlyReadersGetIn`), and nothing at all exactly when no transaction has a voucher
  dated by L under way that it can still commit (`LockRaces.LockHoldsIff`).
- The web declaration and the income statement leave series O out, where closes are posted, but a close
  can be undone like any voucher, and its reversal is posted in series R. Both then count the closed
  year once more (`UndoneClose.UndoneCloseCountsAgain`, `UndoneClose.UndoneCloseIsDeclaredAgain`;
  `UndoneClose.SoldOnceDeclaredTwice` is a year with one sale). Without that, the declaration is what was
  traded (`VatRuns.DeclarationIsTrue`).
- A break-even year cannot be closed, because its 2099 line is zero
  (`YearEnd.BreakEvenYearRefused`; `YearEnd.CloseAcceptedIff` says exactly when a close works).
- A SIE text that ends in a backslash is read back with a quotation mark in its place
  (`SieRoundTrip.RereadExactIff`); no other text changes, and none adds or removes a record.
- SIE amounts survive for MinInt64 too: printer and parser wrap in opposite directions.
  `Amount.String` of MinInt64 prints two signs and the bank parser refuses it; the other amounts
  it refuses are those whose kronor exceed the limit of `oreFromParts`.
- A purchase whose VAT rounds to zero is refused (`Moms.PurchasePostableIff`), and a cost account
  that is itself a VAT account moves box 49 by the net (`VatRuns.PurchaseShows`).
- The comment on `ErrPaymentMismatch` asks a SEK payment to equal the invoice total; the code takes
  instalments and rounds differences below a krona. The comment on `CreditInvoice` says the note's
  lines negate the original; they are positive, and only the voucher is reversed. The model follows the code.

## Model

| member | source | states |
|---|---|---|
| Ledger.Validate | internal/ledger/ledger.go:63-93 | the wrapping loop reports exactly the true first fault, and none exactly when the entry is a double entry with both totals in int64 |
| Ledger.VerdictAccepts | internal/ledger/ledger.go:61-93 | acceptance is equivalent to the double-entry conditions over unbounded integers plus the int64 bound |
| Ledger.VerdictIs | internal/ledger/ledger.go:63-93 | which fault is reported: too few lines first, then what is wrong with the first bad line or the first running total beyond int64, imbalance last |
| Ledger.LineFaultIs | internal/ledger/ledger.go:69-77 | what is wrong with one line: no account, a negative side, both sides or neither |
| Ledger.ClassesAre | internal/ledger/chart.go:21-50 | the class of an account by its first digit; result accounts are exactly 3 to 8, balance accounts 1 and 2 |
| Ledger.SelectionsAre | internal/ledger/reports.go:146-157 | equity is exactly the accounts from 20, liabilities the rest of class 2 |
| Ledger.Reverse | internal/ledger/ledger.go:96-100 | the loop yields the entry with every line's sides swapped |
| Ledger.ReverseCancels | internal/ledger/ledger.go:95-100 | a reversal nets to minus the original on every selection of accounts and is postable exactly when it is |
| Ledger.OrderOfLinesIrrelevant | internal/ledger/ledger.go:63-93 | reordering lines changes no net, no total and not whether the entry can be posted |
| Reports.Balances | internal/ledger/reports.go:14-22 | the map has exactly the accounts that occur, each with its net in int64 |
| Reports.TrialBalanceNet | internal/db/queries/ledger.sql:52-58 | grouping loses nothing: rows of any selection, when the query's sums fit BIGINT, add up to the net of the covered vouchers, to zero overall |
| Reports.CoversDays | internal/db/queries/ledger.sql:52-84 | a period counts its first and its last day, and leaves out only the excluded series |
| Reports.QueryIff | internal/db/queries/ledger.sql:53 | a query fails exactly when the net of some account that occurs leaves BIGINT |
| Reports.GroupedIsSorted | internal/ledger/reports.go:33-41 | one row per account that occurs, in account order |
| Reports.LessIs | internal/db/queries/ledger.sql:58 | account order: a proper prefix, or the first character that differs |
| Reports.RowsDetermined | internal/ledger/reports.go:31-41 | sorted rows are determined by which accounts occur and their nets |
| Statements.BuildStatementsPeriod | internal/ledger/reports.go:117-174 | every section lists the rows of its own digits with name and natural sign, its total is their int64 sum, and assets always equal equity plus liabilities |
| Statements.SectionsByNumber | internal/ledger/reports.go:117-157 | income is the accounts on 3, expenses 4 to 7, financial 8, assets 1, equity 20, other liabilities 2, each with its natural sign |
| Reports.SyntheticIsLiveResult | internal/ledger/reports.go:158-172 | the balancing equity row is the result of the same balances exactly when accounts outside the chart classes net to nothing |
| Books.Company.PostVerification | internal/store/store.go:169-222 | validates, checks lock and chart, numbers and appends, or changes nothing and says why |
| Books.Company.LockPeriod | internal/store/store_audit.go:110-117 | sets the lock and nothing else |
| Books.Company.UnlockPeriod | internal/store/store_audit.go:121-128 | clears the lock and nothing else |
| Books.PostKeepsBooks | internal/store/store.go:169-222 | accepted exactly for postable entries over charted accounts dated strictly after the lock; appends one voucher, numbered without gap, and changes nothing posted |
| Books.PostRefusals | internal/store/store.go:169-200 | why a posting is refused: an invalid entry before all else, then a date through the lock, then the first account outside the chart |
| YearEnd.BuildClosing | internal/store/store_fiscalyear.go:86-111 | the int64 loop builds the emptying lines and the 2099 line |
| YearEnd.CloseFiscalYear | internal/store/store_fiscalyear.go:74-135 | one call that nothing comes between: posts, marks the year closed and locks through its end, or changes nothing |
| YearEnd.FinishClose | internal/store/store_fiscalyear.go:113-135 | the transaction of the close on balances that may be stale: posts them, marks the year and locks, or changes nothing |
| YearEnd.ClosingIsExact | internal/store/store_fiscalyear.go:91-112 | an accepted closing entry wrapped nowhere: it empties every result account and books the true, non-zero result |
| YearEnd.ClosingByAccount | internal/store/store_fiscalyear.go:91-112 | the entry moves each account on 3 to 8 by minus its balance and 2099 by their sum |
| YearEnd.ClosingPostableIff | internal/store/store_fiscalyear.go:91-112 | postable exactly when there is a result and neither income nor costs exceed int64 |
| YearEnd.CloseAcceptedIff | internal/store/store_fiscalyear.go:74-135 | an open year closes exactly when its query succeeds, it made a result within int64, ends strictly after the lock date, and 2099 is charted |
| YearEnd.CloseRefusals | internal/store/store_fiscalyear.go:74-107 | why a year is not closed: missing, closed already, unreadable balances, nothing on 3 to 8, or the entry refused |
| YearEnd.ClosePosts | internal/store/store_fiscalyear.go:113-133 | on any balances, stale or not: one balanced series-O voucher at the year's end; the lock moves forward to it |
| YearEnd.CloseEmptiesResultAccounts | internal/store/store_fiscalyear.go:69-112 | with no earlier series-O voucher every account on 3 to 8 is zero over the year; otherwise what those left remains |
| YearEnd.CloseLeaves | internal/store/store_fiscalyear.go:86-133 | a close on balances read from earlier books leaves on each account on 3 to 8 exactly what those balances did not hold |
| YearEnd.CloseLeavesWhatCameBetween | internal/store/store_fiscalyear.go:86-133 | with no earlier series-O voucher, exactly what was posted for the year between the reading and the close remains |
| YearEnd.CloseKeepsIncomeStatement | internal/db/queries/ledger.sql:76-84 | series-O-excluded trial balances keep every row |
| YearEnd.CloseKeepsBalanceSheet | internal/ledger/reports.go:146-172 | at every date assets and liabilities stay; 2099 takes exactly what the synthetic row gives up |
| YearEnd.BreakEvenYearRefused | internal/store/store_fiscalyear.go:107-111 | a year without result is never closed |
| Runs.RunKeepsBooks | internal/store/store.go:43-55 | over every run posted vouchers never change, numbers have no gap, every trial balance sums to zero |
| Runs.LockFreezesReports | internal/store/store.go:174-180 | while the lock stays at or after L no run changes a row of any trial balance ending by L |
| Runs.OnlyLockStepsLowerIt | internal/store/store_fiscalyear.go:114-133 | posting and closing a year never lower the lock |
| Runs.StepSets | internal/store/store_audit.go:110-128 | the lock is set or cleared whatever it was, and a year is opened once |
| Decimal.ParseShowInt | internal/sie/sie.go:191 | reading back a printed int64 |
| Sie.Balances | internal/sie/sie.go:76-87 | true exactly when every voucher's wrapped sum is zero |
| Sie.Write | internal/sie/sie.go:90-142 | the encoded text of the records in their order, or the refusal of an unbalanced voucher or of a character the code page lacks |
| Sie.Tokenize | internal/sie/sie.go:223-272 | the index loop computes the recursive reading of blanks, quoted strings, nested braces and bare words |
| Sie.Parse | internal/sie/sie.go:146-219 | the loop over lines computes the fold of the record rules, up to the first line that fills the scanner's buffer |
| SieRoundTrip.AmountRoundTrip | internal/sie/sie.go:303-327 | every int64 amount reads back, MinInt64 included |
| SieRoundTrip.DayRoundTrip | internal/sie/sie.go:293-300 | every date prints as eight digits and reads back |
| SieRoundTrip.QuoteToken | internal/sie/sie.go:274-284 | any quoted text is one token again |
| SieRoundTrip.RereadExactIff | internal/sie/sie.go:274-284 | a text survives, control characters as spaces, exactly when it does not end in a backslash |
| SieRoundTrip.RecordTokens | internal/sie/sie.go:223-272 | a written record tokenizes to its own fields |
| SieRoundTrip.LinesAreRecords | internal/sie/sie.go:95-98 | lines of the file are its records, one for one: no text adds or removes one |
| SieRoundTrip.RoundTrip | internal/sie/sie.go:90-219 | parsing what was written gives back company, year, accounts, balances and vouchers in order |
| SieRoundTrip.FileRoundTrip | internal/sie/sie.go:90-219 | through bytes: written exactly when every voucher balances and the code page has every character, and then read back unless a line is too long |
| SieExport.FileTextIs | internal/sie/sie.go:90-142 | the text of the file, line by line and word by word |
| SieExport.AmountIs | internal/sie/sie.go:303-311 | an amount is written as a sign, kronor, a point and two digits |
| SieExport.FileRefused | internal/sie/sie.go:76-94 | no file is written exactly when some voucher does not come to zero in int64 or the code page lacks a character |
| SieReading.TextReads | internal/sie/sie.go:146-219 | any text, whoever wrote it, is read as its records of each kind in order: balances and the year only of year 0, transactions only under an open heading, the last name and number given |
| SieReading.FieldsOf | internal/sie/sie.go:223-272 | blanks separate fields; words, object lists and unterminated texts end where they should |
| SieReading.ListEnds | internal/sie/sie.go:247-262 | an object list ends at the first brace that closes all open ones, or with the line |
| SieReading.WordEnds | internal/sie/sie.go:263-268 | a bare word ends at the first blank |
| SieReading.LinesOf | internal/sie/sie.go:149-154 | lines end at line feeds; the last one need not |
| SieReading.ReturnsDropped | internal/sie/sie.go:154 | carriage returns at the end of a line are dropped |
| SieReading.IntegersRead | internal/sie/sie.go:317 | digits are read with either sign or none, at the nearest int64 bound out of range |
| SieReading.NothingElseRead | internal/sie/sie.go:317 | anything but digits is read as zero |
| SieReading.AmountsRead | internal/sie/sie.go:313-327 | an amount is read with any number of decimals or none, cut to two |
| SieReading.DaysAre | internal/sie/sie.go:297-300 | the days of each month, leap years by the 4, 100 and 400 rule |
| SieReading.DaysRead | internal/sie/sie.go:297-300 | eight digits are read as a day exactly when the calendar has it; nothing else is |
| SieReading.LineLimit | internal/sie/sie.go:150 | the length of a line in UTF-8 and where reading stops |
| SieTransfer.ExportSIE | internal/store/store_invoice.go:157-229 | the loops and the map of lines build the export of the current books, with each voucher's lines in whatever order the query returns them |
| SieExport.ExportFigures | internal/store/store_invoice.go:190-228 | the year is that of the first voucher; #IB, #UB and #RES hold exactly the accounts of their classes with a net, at that net, as of the eve, the last day, and over the year |
| SieExport.ExportVouchersAre | internal/store/store_invoice.go:174-194 | each voucher keeps series, number, date and text, each line is debit less credit |
| SieExport.ListingIs | internal/db/queries/ledger.sql:40-41 | the listing is every voucher once, by date, series and number |
| SieTransfer.ImportSIE | internal/store/store_sie_import.go:38-113 | seeds accounts, posts opening balances, replays vouchers, as a function of the books before; on any refusal nothing changes |
| SieImport.ImportedIff | internal/store/store_sie_import.go:38-113 | any file is imported exactly when the company has no voucher, its non-zero opening balances come to zero on charted accounts, two or more, within int64 and after the lock, and so does each voucher; and which stage refuses it |
| SieImport.ImportedBooks | internal/store/store_sie_import.go:53-113 | the opening voucher in series IB on the first day of the year with a line for each balance, debit where positive; then each voucher with its date, series or A, text or Import, and lines; over the merged chart |
| SieImport.ImportedBalances | internal/store/store_sie_import.go:63-104 | on every day each account stands at its opening balance plus the amounts of the file through that day |
| SieTransferProof.ExportIsSafe | internal/store/store_invoice.go:202-228 | an export of well-kept books can be written, and carries no opening balance |
| SieTransferProof.TransferPreservesBalances | internal/store/store_sie_import.go:38-113 | export with the lines in any order, write, parse and import into an empty unlocked company always succeeds and keeps the net of every selection in every period |
| SieTransferProof.TransferPreservesTrialBalances | internal/store/store_sie_import.go:38-113 | and row by row every trial balance is the original's |
| SieTransferProof.VouchersReturn | internal/store/store_sie_import.go:87-104 | voucher by voucher, the date, the lines without VAT codes, the series or A, and the text or Import come back |
| SieTransferProof.FileKeepsTrialBalances | internal/sie/sie.go:90-219 | the same through the bytes of the file: refused exactly for a character outside the code page, else every trial balance comes back unless a line is too long |
| BankAmounts.NormalizeAmount | internal/bank/bank.go:177-212 | spaces dropped, ends trimmed, sign read, and anything but a bare token refused |
| BankAmounts.IsGrouped | internal/bank/bank.go:150-165 | the loop decides the grouping conditions |
| BankAmounts.GroupedIff | internal/bank/bank.go:144-165 | grouped exactly when the string is the thousands-grouped rendering of some n of 1000 or more |
| BankAmounts.OreFromParts | internal/bank/bank.go:216-243 | accepts digits exactly up to (MaxInt64-99)/100 kronor; no step wraps and the early guard refuses nothing more |
| BankAmounts.OreAccepts | internal/bank/bank.go:216-243 | accepted exactly when there are digits before the separator, only digits after it, and the kronor leave room for any öre |
| AmountShapes.ReadsAmountString | internal/ledger/money.go:18-24 | the Swedish parser inverts Amount.String exactly for amounts within the limit, and refuses the rest |
| AmountShapes.ReadsGroupedAmounts | internal/bank/bank.go:82-142 | dot-grouped amounts with comma decimals, and without decimals, read back |
| BankAmounts.SignsNegate | internal/bank/bank.go:177-200 | leading minus, trailing minus and parentheses negate a bare token in both parsers |
| BankAmounts.SpacesIgnored | internal/bank/bank.go:177-184 | white space inserted anywhere changes neither parser's answer |
| BankAmounts.ParsersAgree | internal/bank/bank.go:51-142 | when both parsers accept a cell they differ exactly on single-dot grouped integers; what each accepts is in `AmountShapes` |
| AmountShapes.IsoReads | internal/bank/bank.go:51-67 | digits, or digits around one separator, are read as kronor and öre up to the limit, but a comma that could be grouping is refused |
| AmountShapes.IsoReadsOnly | internal/bank/bank.go:51-67 | the ISO parser accepts nothing else |
| AmountShapes.SwedishReads | internal/bank/bank.go:82-142 | grouped integers, grouped integers with decimals after the other separator, and digits around one separator, where a dot that could be grouping is |
| AmountShapes.SwedishReadsOnly | internal/bank/bank.go:82-142 | the Swedish parser accepts nothing else |
| AmountShapes.IsoReadsAmounts | internal/bank/bank.go:51-67 | whole kronor, and kronor with two decimals after a point or a comma, are read with their sign exactly up to the limit |
| AmountShapes.NormalizesIff | internal/bank/bank.go:177-212 | a cell is read exactly when, white space dropped, it is a token with its signs between marks such as a currency; it is negative if a minus or parentheses say so |
| AmountShapes.SpacesAre | internal/bank/bank.go:178-183 | what white space is, by code point |
| AmountShapes.SpacelessWhole | internal/bank/bank.go:178-183 | nothing but white space is dropped |
| AmountShapes.CentsAre | internal/bank/bank.go:237-238 | decimals are cut to two, a single one is tenths |
| Moms.RoundedIsNearest | internal/moms/moms.go:97-103 | in int64, rounding gives the nearest integer, ties away from zero, exactly when neither product nor half added leaves int64 |
| Moms.VatWithin | internal/moms/moms.go:95-103 | VAT is the net times the percentage, to the nearest öre, ties away from zero |
| Moms.PurchaseLinesAre | internal/moms/purchase.go:42-94 | the lines of each treatment with its rate, accounts and sides |
| Moms.PayableIs | internal/moms/purchase.go:96-104 | the debt is net plus VAT at the rate deducted, or the bare net |
| Moms.BoxesRead | internal/moms/moms.go:173-189 | which accounts show in each box, and with which sign |
| Moms.PurchaseBooksPayable | internal/moms/purchase.go:66-104 | in int64, a purchase owes exactly Payable on 2440, less the net if the cost sits there too, and balances exactly when net plus VAT does not wrap |
| Moms.PurchasePostableIff | internal/moms/purchase.go:66-96 | refused exactly when its VAT comes to nothing or below, or its total leaves int64 |
| Moms.ReportAdds | internal/moms/moms.go:173-189 | each of the ten boxes for two sets of postings is the int64 sum of their boxes |
| Moms.ReportReads | internal/moms/moms.go:173-189 | every box is that of the postings in int64, whatever order wrapped the balances |
| Moms.ReportTotals | internal/moms/moms.go:185-189 | box 49 is the int64 sum of boxes 10, 11, 12 and 30 less box 48 |
| VatRuns.SaleShows | internal/invoice/invoice.go:139-152 | a sale shows in every box exactly its Swedish net and output VAT in SEK and its EU services |
| VatRuns.PurchaseShows | internal/moms/purchase.go:66-96 | a purchase shows in every box exactly its net and VAT, plus what its cost account does there; reverse charge cancels in box 49 for every net |
| VatRuns.CloseShows | internal/store/store_fiscalyear.go:86-112 | a closing entry, on any balances, moves no box but 05, 21, 22 and 39 |
| VatRuns.DeclarationIsTrue | internal/moms/moms.go:173-189 | over every run of sales, purchases, reversals, settlements and closes and for every period, every box is the int64 sum of what the covered vouchers traded and closed; it is what was traded exactly when the closes come to nothing: outside boxes 05, 21, 22 and 39 always, and where series O is left out unless a close was undone |
| VatRuns.BalancesReflect | internal/ledger/reports.go:14-22 | balances of the covered vouchers in int64 are what the declaration requires of them; an account without one stands at nothing |
| UndoneClose.UndoAcceptedIff | internal/store/store_audit.go:218-254 | any voucher, a close too, can be undone exactly on days after the lock; its lines are posted in series R with the sides swapped |
| UndoneClose.UndoneCloseCountsAgain | internal/store/store_audit.go:242-247 | where closes are left out, undoing one gives every result account once more what the closed balances held |
| UndoneClose.UndoneCloseIsDeclaredAgain | internal/handler/web.go:1060-1087 | and boxes 05, 21, 22 and 39 of the web declaration once more the closed year's figures |
| UndoneClose.SoldOnceDeclaredTwice | internal/handler/web.go:1060-1087 | a year with one sale of 100 kronor, closed and the close undone, is declared with 200 |
| Aggregates.Aggregate | internal/invoice/invoice.go:75-86 | one aggregate per code that occurs, with its net and VAT in int64 |
| Invoicing.GrossSek | internal/invoice/invoice.go:75-93 | whatever order the map is walked in, the int64 sum over all codes |
| Invoicing.VerificationLines | internal/invoice/invoice.go:124-153 | the receivable line, then the lines of the known codes in order, all int64 values |
| Invoicing.NetIsQuantityTimesPrice | internal/invoice/invoice.go:26-34 | a line is quantity times price to the nearest öre, ties away from zero |
| Invoicing.VatIsPercentOfNet | internal/invoice/invoice.go:36-39 | its VAT is 25, 12, 6 or 0 percent of the net to the nearest öre |
| Invoicing.EntryLinesAre | internal/invoice/invoice.go:121-153 | 1510 debited, then for each rate its sales account and, unless zero, its output VAT account credited |
| Invoicing.NoVatAbroad | internal/invoice/invoice.go:139-152 | sales within the EU and outside it carry no VAT |
| Invoicing.EntryBalances | internal/invoice/invoice.go:121-153 | every entry debits exactly the receivable, on sales and output VAT accounts only, and balances exactly when its credits stay in int64 |
| Invoicing.GrossIsReceivablePlusUnknown | internal/invoice/invoice.go:73-96 | the gross is the 1510 debit plus the shares of unknown codes; they agree exactly when those shares come to nothing in int64 |
| Invoicing.EntryOrderIrrelevant | internal/invoice/invoice.go:124-153 | reordering the items changes neither entry nor gross |
| Invoicing.GrossIsClose | internal/invoice/invoice.go:62-93 | while nothing leaves int64, the gross is the total at the identity rate, else within one öre per VAT code of total times rate |
| Invoicing.ConversionIs | internal/invoice/invoice.go:52-71 | the rate is the document's or one, and a conversion is the nearest öre, ties away from zero |
| Invoicing.GrossIsCloseToPrices | internal/invoice/invoice.go:26-96 | in range the gross is quantity times price times the percentage times the rate, within an öre per code and nine eighths of an öre per line |
| InvoiceDesk.Office.CreateInvoice | internal/store/store_invoice.go:28-82 | appends a draft, in SEK and at rate one where none is given |
| InvoiceDesk.Office.FinalizeInvoice | internal/store/store_invoice.go:90-152 | posts the entry in series F and marks the row, or changes nothing and says why |
| InvoiceDesk.Office.RecordPayment | internal/store/store_payment.go:43-140 | books the payment branch by branch in int64, or changes nothing and says why; an amount_paid that leaves BIGINT rolls the voucher back |
| InvoiceDesk.Office.CreditInvoice | internal/store/store_invoice.go:248-323 | creates the note, reverses the entry, marks both; a refusal leaves only the draft note |
| InvoiceRules.CreateAppends | internal/store/store_invoice.go:28-82 | what a new row holds |
| InvoiceRules.FinalizePosts | internal/store/store_invoice.go:90-152 | finalized exactly when a draft whose entry can be posted: that entry, in series F, on the given date, once |
| InvoiceRules.SekPaymentIs | internal/store/store_payment.go:84-111 | a SEK payment by what it leaves: nothing, less than a krona either way to 3740, more too much refused, more too little left open |
| InvoiceRules.ForeignPaymentIs | internal/store/store_payment.go:69-83 | a foreign invoice takes one payment; the difference goes to 3960 or 7960 |
| InvoiceRules.PayRefusals | internal/store/store_payment.go:43-108 | which problem a payment meets |
| InvoiceRules.PayPosts | internal/store/store_payment.go:113-140 | booked in series B on the given date and counted, exactly when it can be posted and the sum stays in the column |
| InvoiceRules.CreditPosts | internal/store/store_invoice.go:248-323 | a note with the same document, and the entry with sides swapped in series F, exactly when that can be posted |
| InvoiceDesk.ResidualIsTrue | internal/store/store_payment.go:87-88 | the amount paid so far may wrap; on an open invoice what remains does not |
| ReceivablesProof.RunKeepsSubledger | internal/store/store_payment.go:43-140 | over every run and for all VAT codes, each invoice's own vouchers agree with its row on every tracked account |
| ReceivablesProof.ReceivableStands | internal/store/store_payment.go:71-112 | for all VAT codes, on 1510 an ordinary invoice stands at its receivable less what was paid, and less all that was cleared once settled |
| ReceivablesProof.ReceivableAgrees | internal/store/store_payment.go:71-112 | with known VAT codes an open invoice stands on 1510 at gross less paid and a paid one at exactly nothing; an open SEK invoice with a payment still owes a krona or more |
| ReceivablesProof.DifferencesBooked | internal/store/store_payment.go:71-112 | a settled SEK invoice is off by less than 100 öre, exactly on 3740; a foreign one books exactly the difference to 3960 or 7960 |
| ReceivablesProof.CreditRestores | internal/store/store_invoice.go:282-294 | a credit note takes exactly the invoice's entry back out of the books |
| ReceivablesProof.SettledClearsIff | internal/store/store_payment.go:43-140 | a settled invoice or credit note stands on 1510 at its entry less what its payments cleared, which is the gross where that is positive |
| ReceivablesProof.PaidClearsIff | internal/store/store_payment.go:71-112 | over every run and for every gross, a paid invoice has cleared 1510 exactly when the shares of its unknown VAT codes come to nothing in int64 |
| ReceivablesProof.CreditNotesCanBePaid | internal/store/store_payment.go:51-56 | crediting any open SEK invoice and paying the note in full is accepted and leaves minus the receivable minus the gross |
| ReceivablesProof.UnknownCodesStayUncleared | internal/invoice/invoice.go:88-93 | an ordinary invoice paid in full keeps minus the shares of its unknown codes on 1510 |
| UnknownCode.GrossExceedsEntry | internal/invoice/invoice.go:88-153 | a concrete invoice whose gross is 225 kronor and whose entry debits 125 |
| UnknownCode.PaidButNotCleared | internal/store/store_payment.go:43-140 | created, finalized and paid on an empty book, it is paid and minus 100 kronor stay on 1510 |
| Matching.MatchOpenInvoices | internal/store/store_mcp.go:89-108 | the exact matches in listing order, then the near ones |
| Matching.MatchFindsSettled | internal/store/store_mcp.go:85-108 | among open SEK invoices exactly those the payment would settle, each once per listing; drafts, paid ones and credit notes never |
| Payables.SupplierDesk.FinalizeSupplierInvoice | internal/store/store_supplier.go:82-117 | posts the purchase in series L and marks the bill, or changes nothing |
| Payables.SupplierDesk.RecordSupplierPayment | internal/store/store_supplier.go:122-177 | clears the debt, rounds less than a krona, refuses more |
| BillRules.CreateBillIs | internal/store/store_supplier.go:52-79 | a bill with a positive net is recorded as a draft, no other is |
| BillRules.FinalizeBillPosts | internal/store/store_supplier.go:82-117 | finalized exactly when a draft whose purchase can be posted: in series L, on its own date, once |
| BillRules.BillPaymentIs | internal/store/store_supplier.go:122-151 | the whole debt off 2440, the amount off the bank, less than a krona of difference on 3740 on the side that balances, and more refused |
| BillRules.PayBillRefusals | internal/store/store_supplier.go:122-151 | which problem a payment meets |
| BillRules.PayBillPosts | internal/store/store_supplier.go:152-177 | posted in series LB on the given date and marked paid, exactly when it can be posted |
| Payables.RunKeepsBills | internal/store/store_supplier.go:82-177 | over every run each bill's own vouchers agree with its status |
| Payables.BillAgrees | internal/store/store_supplier.go:134-151 | on 2440 minus Payable until paid and exactly nothing after; on 3740 exactly the difference, below 100 öre |
| AuditChain.VerifyAuditChain | internal/store/store_audit.go:84-98 | accepts exactly the chains, and otherwise names the first row that does not fit |
| AuditChain.AuditLog.LogAudit | internal/store/store_audit.go:46-64 | a lone writer is never refused and appends one chained row |
| AuditChain.InterleavingsKeepChain | internal/db/migrations/00017_audit_chain_nofork.sql:7 | every interleaving keeps every transaction's view one unforked chain and never changes a committed row |
| AuditChain.LogVerifies | internal/store/store_audit.go:46-98 | from an empty log, the committed rows in id order always pass the check, whatever the hash |
| AuditChain.MessageInjective | internal/store/store_audit.go:72-80 | NUL-free fields cannot be confused in what is hashed |
| AuditChain.MessageIs | internal/store/store_audit.go:72-80 | what is hashed: the previous hash and the six columns in order, each behind a zero byte |
| AuditChain.AlterationReported | internal/store/store_audit.go:82-98 | an altered row is reported at that row unless it was rehashed correctly, then at the next, and passes only as the last |
| AuditChain.GoodHashExists | internal/store/store_audit.go:66-80 | the assumptions on the hash can be met |
| AuditChain.AcceptedLogsAgree | internal/store/store_audit.go:66-80 | two accepted logs that share a hash agree on everything before it |
| AuditChain.RemovalReported | internal/store/store_audit.go:82-98 | removing any row but the last is reported; cutting the end off is not |
| BankClaims.ClaimsAreExclusive | internal/store/store_bank.go:122-220 | over every interleaving and crash at most one payment and one account voucher; 'booking' has exactly one owner |
| BankClaims.CrashEnds | internal/store/store_bank.go:122-161 | a caller that dies holds no row lock and posts nothing more, while its committed claim stays |
| BankClaims.BooksOnceIff | internal/db/queries/bank.sql:12-32 | no interleaving books the transaction twice exactly when no invoice booker and account booker are both among the callers |
| BankClaims.MixedRunBooksTwice | internal/db/queries/bank.sql:25-28 | in every mixed list of callers one six-step run commits a payment and a voucher |
| BankClaims.OneKindBooksOnce | internal/db/queries/bank.sql:12-32 | with booking callers of one kind 'booked' always has its posting, exactly one |
| BankDesk.BankRow.Claim | internal/db/queries/bank.sql:12-17 | moves only an unmatched row, and reports whether it did |
| BankDesk.BankRow.MarkBooked | internal/db/queries/bank.sql:25-28 | books an unmatched or claimed row, and no other |
| BankDesk.BankRow.Ignore | internal/store/store_bank.go:211-220 | ignores only an unmatched row |
| BankDesk.BookToInvoice | internal/store/store_bank.go:122-161 | books the payment and marks the row; a refused payment gives the claim back and changes nothing |
| BankDesk.BookToAccount | internal/store/store_bank.go:166-208 | posts and marks, or changes nothing |
| BankDesk.AccountLinesBook | internal/store/store_bank.go:177-183 | every amount but zero and MinInt64 books, moving exactly the amount |
| Numbering.InterleavingsKeep | internal/store/store.go:169-222 | every interleaving of postings and locks keeps every transaction's view gap-free and charted, with no series shared by two |
| Numbering.LockUpdatesExclude | internal/db/queries/audit.sql:1-2 | at most one transaction at a time holds an update of the lock |
| Numbering.NumbersAreExactly | internal/db/queries/ledger.sql:27-29 | the numbers of a series are exactly 1..n, each once |
| Numbering.NumbersHaveNoGaps | internal/db/migrations/00001_init.sql:49 | over every interleaving of reads, guarded inserts, commits and rollbacks: numbers 1..n, charted balanced vouchers, zero trial balance, nothing committed changes |
| LockRaces.OnlyEarlyReadersGetIn | internal/store/store.go:174-180 | while the lock stays at or after L, a voucher dated by L is committed only if it was inserted, or its posting had read the lock, before |
| LockRaces.LockHoldsIff | internal/store/store.go:169-222 | in every reachable state under a lock at or after L, no interleaving that keeps it commits a voucher dated by L exactly when no transaction has one under way that it can still commit |
| LockRaces.LockFreezesReportsInTime | internal/store/store_audit.go:110-117 | and then no row of any trial balance ending by L changes |
| LockRaces.PostingOvertakesLock | internal/store/store.go:174-180 | every postable entry dated by L has an interleaving that commits it after a lock through L |
| Backfill.BackfillRows | internal/store/store_document.go:210-254 | the cached loop reports what the uncached rule does, looking each company's key up at most once |
| Backfill.OutcomeIs | internal/store/store_document.go:219-250 | when a row is skipped, what is written of it, and which failure is fatal |
| Backfill.EveryRowAccounted | internal/store/store_document.go:172-183 | without a fatal error migrated plus skipped is every row, and rows are written exactly under their company's usable key |
| Backfill.FatalLeavesPrefix | internal/store/store_document.go:225-247 | a fatal error leaves exactly the rows before the offending one processed |
| Backfill.WrittenReadsBack | internal/store/store_document.go:46-65 | what is written decrypts to what was there |
| Backfill.FieldReads | internal/store/store_document.go:53-65 | a field that cannot be decrypted reads as empty |
| Ceiling.RunPostVerification | internal/mcp/tools.go:406-453 | the wrapping sum, the ceiling, the dry run and the posting, in that order |
| Ceiling.CeilingHolds | internal/mcp/tools.go:126-133 | under a positive ceiling nothing is posted or previewed whose true total exceeds it |
| Ceiling.ToolReplies | internal/mcp/tools.go:406-453 | refused over the ceiling exactly when there is one and the wrapped sum exceeds it; a dry run changes nothing; otherwise what posting does |
| Ceiling.ToolSumCanWrap | internal/mcp/tools.go:422-432 | the tool's own sum wraps on a concrete entry; validation stops it |

## Left out

- SieRoundTrip.RoundTrip: the fields the writer does not quote (organisation number, accounts, series) must be bare words; `#RES` and `#GEN` are written and never read.
- SieTransferProof.TransferPreservesTrialBalances: periods that exclude the empty series or series A are not compared, because an empty series is imported as A; years run from 0000 to 9999; two export queries may fail silently only on a BIGINT overflow.
- SieRoundTrip.FileRoundTrip: the table of code page 437 is a parameter that only has to be inverted by its decoder.
- Invoicing.NetIsQuantityTimesPrice: only while the product and the half added to it stay in int64; `Invoicing.VatIsPercentOfNet` and `Invoicing.ConversionIs` likewise. `Moms.RoundedIsNearest` says that rounding is right exactly then.
- Invoicing.GrossIsClose: only while sums and conversions stay in int64; beyond that the gross is the wrapped sum that `Invoicing.GrossSek` states.
- YearEnd.CloseFiscalYear: an undisturbed call; a posting between its reading and its transaction is in `YearEnd.FinishClose` and `YearEnd.CloseLeaves`.
- Runs.LockFreezesReports: transactions are atomic here; what interleaved ones do to the lock is in `LockRaces`. Times of day are not modelled.
- ReceivablesProof.RunKeepsSubledger: payment accounts other than the tracked one; overlapping payments, finalizations or credits of one invoice are atomic steps, as the code has no guard for them.
- Payables.RunKeepsBills: the cost and payment accounts are not the account being tracked.
- AuditChain.AlterationReported: a row's id and time are not hashed, so changes to them are not covered; the keyed hash is an injective function without NUL or empty results.
- BankClaims.ClaimsAreExclusive: a commit whose outcome the caller does not learn is not modelled; the payment inside the claim is one step.
- Numbering.NumbersHaveNoGaps: immutability is the absence of any updating step, as the triggers refuse them; a transaction sets the lock last, as every caller does.
- Backfill.BackfillRows: a company's key lookup gives the same answer throughout one run.
- Invoice numbers, due dates, deletion of drafts, counterparties and the check that a row belongs to the calling company.
- Corrections of vouchers linked to invoices: the ledger side is `Ledger.ReverseCancels`; the invoice row is not touched by the program either.
- Bank statement import and its fingerprint, CSV header detection and camt.053 XML.
- Database collation: account numbers and series are ordered by character code.
- Links between vouchers (`reversal_of`), labels, dashboards, ageing, PDFs, e-mail, HTTP, sessions and configuration.
- Encryption itself, audit entries as part of each ledger step, and the journal's time stamps.
