/** Finding the invoices an incoming payment settles. */
module Matching {
  import opened Prelude
  import Invoicing
  import opened Receivables

  predicate IsOpen(inv: Invoice) {
    inv.status == Finalized && inv.credits.None?
  }

  /** What an open invoice still owes, less the payment, in int64. */
  ghost function Gap(inv: Invoice, amount: int): int {
    Minus64(Owed(inv), amount)
  }

  ghost predicate IsExact(inv: Invoice, amount: int) {
    IsOpen(inv) && Gap(inv, amount) == 0
  }

  ghost predicate IsNear(inv: Invoice, amount: int) {
    IsOpen(inv) && Gap(inv, amount) != 0 && Size(Gap(inv, amount)) < THRESHOLD
  }

  ghost predicate Listing(invoices: seq<Invoice>, listed: seq<nat>) {
    forall k :: 0 <= k < |listed| ==> listed[k] < |invoices|
  }

  ghost function Exact(invoices: seq<Invoice>, listed: seq<nat>, amount: int): (r: seq<nat>)
    requires Listing(invoices, listed)
    ensures forall i :: i in r ==> i < |invoices| && IsExact(invoices[i], amount)
  {
    if listed == [] then []
    else
      var n := |listed| - 1;
      Exact(invoices, listed[..n], amount) + if IsExact(invoices[listed[n]], amount) then [listed[n]] else []
  }

  ghost function Near(invoices: seq<Invoice>, listed: seq<nat>, amount: int): (r: seq<nat>)
    requires Listing(invoices, listed)
    ensures forall i :: i in r ==> i < |invoices| && IsNear(invoices[i], amount)
  {
    if listed == [] then []
    else
      var n := |listed| - 1;
      Near(invoices, listed[..n], amount) + if IsNear(invoices[listed[n]], amount) then [listed[n]] else []
  }

  /** Walks the invoices in the order the store lists them. */
  method MatchOpenInvoices(invoices: seq<Invoice>, listed: seq<nat>, amount: int) returns (found: seq<nat>)
    requires Listing(invoices, listed)
    ensures found == Exact(invoices, listed, amount) + Near(invoices, listed, amount)
  {
    var exact, near: seq<nat> := [], [];
    for k := 0 to |listed|
      invariant exact == Exact(invoices, listed[..k], amount)
      invariant near == Near(invoices, listed[..k], amount)
    {
      assert listed[..k + 1][..k] == listed[..k];
      var inv := invoices[listed[k]];
      if inv.status != Finalized || inv.credits.Some? {
        continue;
      }
      var total := Invoicing.GrossSek(inv.doc);
      var diff := Minus64(Minus64(total, inv.amountPaid), amount);
      if diff == 0 {
        exact := exact + [listed[k]];
      } else if Size(diff) < THRESHOLD {
        near := near + [listed[k]];
      }
    }
    assert listed[..|listed|] == listed;
    found := exact + near;
  }

  ghost predicate Settles(inv: Invoice, account: string, amount: int) {
    var pay := PaymentFor(inv, Invoicing.Gross(inv.doc), account, amount);
    pay.Ok? && pay.value.settles
  }

  lemma {:induction false} GapIsResidual(gross: int, paid: int, amount: int)
    ensures Minus64(Minus64(gross, paid), amount) == Minus64(gross, Plus64(paid, amount))
  {
    WrapAdd(gross - paid, -amount);
    WrapAdd(paid + amount, gross);
  }

  lemma {:induction false} ZeroGap(owed: int, amount: int)
    requires Fits(owed) && Fits(amount)
    ensures Minus64(owed, amount) == 0 <==> owed == amount
  {
    var k := WrapIs(owed - amount);
  }

  /** An open SEK invoice matches exactly when the payment would settle it in full: to
      the öre, or off by less than a krona. */
  lemma {:induction false} MatchesIffSettles(inv: Invoice, account: string, amount: int)
    requires IsOpen(inv) && 0 < amount <= MAX_INT64
    ensures IsSek(inv) ==> (Settles(inv, account, amount) <==> IsExact(inv, amount) || IsNear(inv, amount))
    ensures IsExact(inv, amount) <==> amount == Owed(inv)
  {
    GapIsResidual(Invoicing.Gross(inv.doc), inv.amountPaid, amount);
    ZeroGap(Owed(inv), amount);
  }

  lemma {:induction false} ListsCount(invoices: seq<Invoice>, listed: seq<nat>, amount: int, i: nat)
    requires Listing(invoices, listed)
    requires i < |invoices|
    ensures multiset(Exact(invoices, listed, amount))[i]
         == if IsExact(invoices[i], amount) then multiset(listed)[i] else 0
    ensures multiset(Near(invoices, listed, amount))[i]
         == if IsNear(invoices[i], amount) then multiset(listed)[i] else 0
  {
    if listed != [] {
      var n := |listed| - 1;
      ListsCount(invoices, listed[..n], amount, i);
      assert listed == listed[..n] + [listed[n]];
    }
  }

  /** Among the open SEK invoices that are not credit notes, the match lists exactly
      those the payment would settle, each as often as the store lists it, and the
      exact ones all come first. Drafts, paid invoices and credit notes never show. */
  lemma {:induction false} MatchFindsSettled(invoices: seq<Invoice>, listed: seq<nat>, account: string, amount: int,
      i: nat)
    requires Listing(invoices, listed) && i < |invoices| && 0 < amount <= MAX_INT64
    ensures var exact, near := Exact(invoices, listed, amount), Near(invoices, listed, amount);
            && (IsOpen(invoices[i]) && IsSek(invoices[i]) ==>
                  multiset(exact + near)[i] == if Settles(invoices[i], account, amount) then multiset(listed)[i] else 0)
            && (!IsOpen(invoices[i]) ==> i !in exact + near)
            && (forall j :: j in exact ==> amount == Owed(invoices[j]))
            && (forall j :: j in near ==> amount != Owed(invoices[j]))
  {
    var exact, near := Exact(invoices, listed, amount), Near(invoices, listed, amount);
    ListsCount(invoices, listed, amount, i);
    assert multiset(exact + near) == multiset(exact) + multiset(near);
    if IsOpen(invoices[i]) {
      MatchesIffSettles(invoices[i], account, amount);
    }
    forall j | j in exact || j in near ensures IsExact(invoices[j], amount) <==> amount == Owed(invoices[j]) {
      MatchesIffSettles(invoices[j], account, amount);
    }
  }
}
