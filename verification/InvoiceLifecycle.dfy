// The status machine of invoices: exactly which request makes which move, what decides the status
// over a run, and runs that leave the documented lifecycle.
module InvoiceLifecycle {
  import opened Prelude
  import opened Money
  import opened InvoiceNumbers
  import opened Billing
  import opened InvoiceGuarantees

  // ---------- Requests that are accepted on invoice i ----------

  predicate Pays(inv: Invoice, e: Event, i: nat) {
    e.Pay? && e.authorized && e.id == i && e.tenant == inv.tenant
  }

  predicate PaysInFull(inv: Invoice, e: Event, i: nat) {
    Pays(inv, e, i) && e.amount * 100.0 >= inv.total as real
  }

  predicate PaysInPart(inv: Invoice, e: Event, i: nat) {
    Pays(inv, e, i) && e.amount * 100.0 < inv.total as real
  }

  predicate Voids(inv: Invoice, e: Event, i: nat) {
    e.MakeVoid? && e.authorized && e.id == i && e.tenant == inv.tenant
  }

  predicate Sends(inv: Invoice, e: Event, i: nat) {
    e.Send? && e.authorized && e.id == i && e.tenant == inv.tenant && inv.status == Draft
  }

  predicate Ages(inv: Invoice, e: Event) {
    e.Sweep? && inv.status == Sent && inv.due < e.today
  }

  // Payment and voiding act in every status; sending only on drafts, the sweep only on sent
  // invoices. There is no other move.
  lemma StatusMovesExactly(l: Ledger, e: Event, i: nat)
    requires i < |l.invoices|
    ensures var a, l' := l.invoices[i], Step(l, e).0;
            && i < |l'.invoices|
            && var before, after := a.status, l'.invoices[i].status;
               var settles := Pays(a, e, i) || Voids(a, e, i);
            && (after == Paid <==> PaysInFull(a, e, i) || (before == Paid && !settles))
            && (after == PartiallyPaid <==> PaysInPart(a, e, i) || (before == PartiallyPaid && !settles))
            && (after == Void <==> Voids(a, e, i) || (before == Void && !settles))
            && (after == Sent <==> Sends(a, e, i) || (before == Sent && !settles && !Ages(a, e)))
            && (after == Overdue <==> Ages(a, e) || (before == Overdue && !settles))
            && (after == Draft <==> before == Draft && !settles && !Sends(a, e, i))
  {
  }

  // ---------- The status over a run ----------

  // The status an accepted payment or voiding sets.
  function Decision(inv: Invoice, e: Event, i: nat): Option<Status> {
    if PaysInFull(inv, e, i) then Some(Paid)
    else if PaysInPart(inv, e, i) then Some(PartiallyPaid)
    else if Voids(inv, e, i) then Some(Void)
    else None
  }

  // The last such decision of a run; it can be read off the requests and the fixed bill.
  function LastDecision(inv: Invoice, es: seq<Event>, i: nat): Option<Status> {
    if es == [] then None
    else
      var later := LastDecision(inv, es[1..], i);
      if later.Some? then later else Decision(inv, es[0], i)
  }

  predicate Settled(s: Status) {
    s == Paid || s == PartiallyPaid || s == Void || s == Overdue
  }

  // Once an invoice is paid, partially paid, void or overdue, its status over every run is that of
  // the last accepted payment or voiding, and what it was if there is none.
  lemma {:induction false} StatusIsTheLastDecision(l: Ledger, es: seq<Event>, i: nat)
    requires i < |l.invoices| && Settled(l.invoices[i].status)
    ensures i < |Run(l, es).invoices|
    ensures var inv, last := l.invoices[i], LastDecision(l.invoices[i], es, i);
            Run(l, es).invoices[i].status == if last.Some? then last.value else inv.status
    decreases |es|
  {
    if es != [] {
      var l' := Step(l, es[0]).0;
      StatusMovesExactly(l, es[0], i);
      StepMoves(l, es[0], i);
      SameBillSameDecision(l.invoices[i], l'.invoices[i], es[1..], i);
      StatusIsTheLastDecision(l', es[1..], i);
    }
  }

  lemma {:induction false} SameBillSameDecision(a: Invoice, b: Invoice, es: seq<Event>, i: nat)
    requires SameBill(a, b)
    ensures LastDecision(a, es, i) == LastDecision(b, es, i)
  {
    if es != [] {
      SameBillSameDecision(a, b, es[1..], i);
    }
  }

  // Some sweep of the run comes after the invoice's due date.
  ghost predicate FallsDue(inv: Invoice, es: seq<Event>) {
    exists k :: 0 <= k < |es| && es[k].Sweep? && inv.due < es[k].today
  }

  lemma {:induction false} FallsDueSplits(inv: Invoice, es: seq<Event>)
    requires es != []
    ensures FallsDue(inv, es) <==> (es[0].Sweep? && inv.due < es[0].today) || FallsDue(inv, es[1..])
  {
    if k :| 0 < k < |es| && es[k].Sweep? && inv.due < es[k].today {
      assert es[1..][k - 1] == es[k];
    }
    if k :| 0 <= k < |es[1..]| && es[1..][k].Sweep? && inv.due < es[1..][k].today {
      assert es[k + 1] == es[1..][k];
    }
  }

  // A sent invoice ends with its last accepted payment or voiding; without one it is overdue exactly
  // if a sweep of the run came after its due date.
  lemma {:induction false} StatusOfSent(l: Ledger, es: seq<Event>, i: nat)
    requires i < |l.invoices| && l.invoices[i].status == Sent
    ensures i < |Run(l, es).invoices|
    ensures var inv, last := l.invoices[i], LastDecision(l.invoices[i], es, i);
            Run(l, es).invoices[i].status ==
              if last.Some? then last.value else if FallsDue(inv, es) then Overdue else Sent
    decreases |es|
  {
    if es != [] {
      var inv, l' := l.invoices[i], Step(l, es[0]).0;
      StatusMovesExactly(l, es[0], i);
      StepMoves(l, es[0], i);
      SameBillSameDecision(inv, l'.invoices[i], es[1..], i);
      FallsDueSplits(inv, es);
      if l'.invoices[i].status == Sent {
        StatusOfSent(l', es[1..], i);
      } else {
        StatusIsTheLastDecision(l', es[1..], i);
      }
    }
  }

  lemma {:induction false} OnlyPaymentsDecideOtherwise(inv: Invoice, es: seq<Event>, i: nat)
    requires forall k | 0 <= k < |es| :: !Pays(inv, es[k], i)
    ensures LastDecision(inv, es, i) == None || LastDecision(inv, es, i) == Some(Void)
  {
    if es != [] {
      OnlyPaymentsDecideOtherwise(inv, es[1..], i);
    }
  }

  lemma {:induction false} LastRequestDecides(inv: Invoice, es: seq<Event>, e: Event, i: nat)
    requires Decision(inv, e, i).Some?
    ensures LastDecision(inv, es + [e], i) == Decision(inv, e, i)
  {
    if es == [] {
      assert ([] + [e])[1..] == [];
    } else {
      LastRequestDecides(inv, es[1..], e, i);
      assert (es + [e])[1..] == es[1..] + [e] && (es + [e])[0] == es[0];
    }
  }

  // A void invoice stays void throughout a run exactly when no payment is accepted on it.
  lemma VoidUntilPaid(l: Ledger, es: seq<Event>, i: nat)
    requires i < |l.invoices| && l.invoices[i].status == Void
    ensures (forall k | 0 <= k <= |es| :: i < |Run(l, es[..k]).invoices| && Run(l, es[..k]).invoices[i].status == Void)
            <==> forall k | 0 <= k < |es| :: !Pays(l.invoices[i], es[k], i)
  {
    var inv := l.invoices[i];
    if forall k | 0 <= k < |es| :: !Pays(inv, es[k], i) {
      forall k | 0 <= k <= |es|
        ensures i < |Run(l, es[..k]).invoices| && Run(l, es[..k]).invoices[i].status == Void
      {
        StatusIsTheLastDecision(l, es[..k], i);
        OnlyPaymentsDecideOtherwise(inv, es[..k], i);
      }
    } else {
      var k :| 0 <= k < |es| && Pays(inv, es[k], i);
      assert es[..k + 1] == es[..k] + [es[k]];
      LastRequestDecides(inv, es[..k], es[k], i);
      StatusIsTheLastDecision(l, es[..k + 1], i);
    }
  }

  // ---------- Runs outside the documented lifecycle ----------

  function Issue(taxRate: real): Event {
    Create(0, true, 2024, 0, taxRate, true)
  }

  function Payment(amount: Positive): Event {
    Pay(0, true, 0, amount, None, 0)
  }

  // The ledger after one invoice was created.
  lemma OneDraft(taxRate: real) returns (l: Ledger)
    ensures l == Step(EMPTY, Issue(taxRate)).0
    ensures |l.invoices| == 1 && l.invoices[0] == NewInvoice(0, Print(2024, 1), 0, taxRate)
  {
    l := Step(EMPTY, Issue(taxRate)).0;
  }

  lemma RunOfTwo(l: Ledger, e: Event, f: Event)
    ensures Run(l, [e, f]) == Step(Step(l, e).0, f).0
  {
    assert [e, f][1..] == [f] && [f][1..] == [];
    assert Run(Step(l, e).0, [f]) == Step(Step(l, e).0, f).0;
  }

  lemma RunOfThree(l: Ledger, e: Event, f: Event, g: Event)
    ensures Run(l, [e, f, g]) == Step(Step(Step(l, e).0, f).0, g).0
  {
    assert [e, f, g][1..] == [f, g];
    RunOfTwo(Step(l, e).0, f, g);
  }

  // An empty draft, never sent, is paid in full by any amount.
  lemma DraftCanBePaid(amount: Positive)
    ensures var l := Run(EMPTY, [Issue(0.0), Payment(amount)]);
            |l.invoices| == 1 && l.invoices[0].status == Paid && l.invoices[0].total == 0
  {
    var l := OneDraft(0.0);
    RunOfTwo(EMPTY, Issue(0.0), Payment(amount));
  }

  lemma VoidCanBePaid(amount: Positive)
    ensures var l := Run(EMPTY, [Issue(0.0), MakeVoid(0, true, 0), Payment(amount)]);
            |l.invoices| == 1 && l.invoices[0].status == Paid
  {
    var l := OneDraft(0.0);
    RunOfThree(EMPTY, Issue(0.0), MakeVoid(0, true, 0), Payment(amount));
  }

  lemma PaidCanBeVoided(amount: Positive)
    ensures var l := Run(EMPTY, [Issue(0.0), Payment(amount), MakeVoid(0, true, 0)]);
            |l.invoices| == 1 && l.invoices[0].status == Void && l.invoices[0].paid.Some?
  {
    var l := OneDraft(0.0);
    RunOfThree(EMPTY, Issue(0.0), Payment(amount), MakeVoid(0, true, 0));
  }

  // A draft of one item of 1.00, and a payment of 0.995 on it: partially paid, and yet the stored
  // payment equals the total.
  lemma StoredPaymentCanReachTotal()
    ensures var l := Run(EMPTY, [Issue(0.0), AddItem(0, 0, 1.0, 1.0), Payment(0.995)]);
            && |l.invoices| == 1 && l.invoices[0].status == PartiallyPaid
            && l.invoices[0].total == 100 && l.invoices[0].paid == Some(100)
  {
    var l := OneDraft(0.0);
    var item := NewItem(1.0, 1.0, 0);
    NearestIsUnique(100.0, 100);
    assert item.amount == 100;
    assert [] + [item] == [item] && [item][..0] == [];
    assert SumAmounts([item]) == 100;
    NearestIsUnique(0.0, 0);
    assert RawTax(100, 0.0) == 0.0 && TotalOf(100, 0.0, 0) == 100;
    assert 0.995 * 100.0 == 99.5 && RoundHalfAway(99.5) == 100;
    RunOfThree(EMPTY, Issue(0.0), AddItem(0, 0, 1.0, 1.0), Payment(0.995));
  }
}
