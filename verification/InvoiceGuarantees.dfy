// What every run of the billing handlers keeps about figures, numbers, statuses and payments.
module InvoiceGuarantees {
  import opened Prelude
  import opened Money
  import opened InvoiceNumbers
  import opened Billing

  // ---------- Figures ----------

  // The stored figures add up, except when the tax is a half-cent tie and the rest of the sum is an
  // odd number of cents: then the total is off by exactly one cent.
  lemma FiguresAddUpIff(inv: Invoice)
    requires FiguresMatch(inv)
    ensures var raw := RawTax(inv.subtotal, inv.taxRate);
            var parts := inv.subtotal + inv.tax - inv.discount;
            && (inv.total == parts <==> !(Tie(raw) && (inv.subtotal - inv.discount) % 2 == 1))
            && parts - 1 <= inv.total <= parts + 1
  {
    TotalAgainstTax(inv.subtotal, RawTax(inv.subtotal, inv.taxRate), inv.discount);
  }

  // One item of 10.05 at 10 percent: the tax is stored as 1.00 and the total as 11.06.
  lemma FiguresCanBeOffByACent()
    ensures var inv := WithItem(NewInvoice(0, "", 0, 0.1), 1.0, 10.05);
            inv.subtotal == 1005 && inv.tax == 100 && inv.total == 1106
  {
    var item := NewItem(1.0, 10.05, 0);
    NearestIsUnique(1005.0, 1005);
    assert item.amount == 1005;
    assert [item][..0] == [];
    assert [] + [item] == [item];
    assert SumAmounts([item]) == 1005;
    assert RawTax(1005, 0.1) == 100.5;
  }

  // The exact value of the items, in cents.
  function ExactCents(items: seq<Item>): real {
    if items == [] then 0.0
    else
      var last := items[|items| - 1];
      ExactCents(items[..|items| - 1]) + ExactAmount(last.quantity, last.price)
  }

  ghost predicate ItemsInOrder(inv: Invoice) {
    forall k | 0 <= k < |inv.items| :: inv.items[k] == NewItem(inv.items[k].quantity, inv.items[k].price, k)
  }

  ghost predicate Sound(inv: Invoice) {
    ItemsInOrder(inv) && FiguresMatch(inv)
  }

  ghost predicate AllSound(l: Ledger) {
    forall i | 0 <= i < |l.invoices| :: Sound(l.invoices[i])
  }

  lemma AddingKeepsSound(inv: Invoice, quantity: Positive, price: Positive)
    requires Sound(inv)
    ensures Sound(WithItem(inv, quantity, price))
  {
  }

  lemma NewIsSound(tenant: nat, number: string, due: int, taxRate: real)
    ensures Sound(NewInvoice(tenant, number, due, taxRate))
  {
    assert RawTax(0, taxRate) == 0.0;
  }

  lemma StepKeepsSound(l: Ledger, e: Event)
    requires AllSound(l)
    ensures AllSound(Step(l, e).0)
  {
    var l' := Step(l, e).0;
    match e
    case AddItem(_, id, quantity, price) =>
      if l' != l {
        AddingKeepsSound(l.invoices[id], quantity, price);
      }
    case Create(tenant, _, _, due, taxRate, _) =>
      if |l'.invoices| > |l.invoices| {
        NewIsSound(tenant, l'.invoices[|l.invoices|].number, due, taxRate);
      }
    case _ =>
      forall i | 0 <= i < |l'.invoices| ensures Sound(l'.invoices[i]) {
        assert Sound(l.invoices[i]);
      }
  }

  lemma {:induction false} RunKeepsSound(l: Ledger, es: seq<Event>)
    requires AllSound(l)
    ensures AllSound(Run(l, es))
    decreases |es|
  {
    if es != [] {
      StepKeepsSound(l, es[0]);
      RunKeepsSound(Step(l, es[0]).0, es[1..]);
    }
  }

  lemma {:induction false} RoundingIsBounded(inv: Invoice, n: nat)
    requires ItemsInOrder(inv) && n <= |inv.items|
    ensures var d := SumAmounts(inv.items[..n]) as real - ExactCents(inv.items[..n]);
            -0.5 * n as real <= d <= 0.5 * n as real
  {
    if n > 0 {
      RoundingIsBounded(inv, n - 1);
      assert inv.items[..n][..n - 1] == inv.items[..n - 1];
      NearestCent(ExactAmount(inv.items[n - 1].quantity, inv.items[n - 1].price));
    }
  }

  // In every run the subtotal is the exact sum of the line amounts, the items are numbered in order,
  // and n items put the subtotal at most n half-cents from the unrounded value.
  lemma SubtotalIsExactAndNear(es: seq<Event>, i: nat)
    requires i < |Run(EMPTY, es).invoices|
    ensures var inv := Run(EMPTY, es).invoices[i];
            var d := inv.subtotal as real - ExactCents(inv.items);
            && FiguresMatch(inv)
            && (forall k | 0 <= k < |inv.items| :: inv.items[k].sortOrder == k)
            && -0.5 * |inv.items| as real <= d <= 0.5 * |inv.items| as real
  {
    RunKeepsSound(EMPTY, es);
    var inv := Run(EMPTY, es).invoices[i];
    RoundingIsBounded(inv, |inv.items|);
    assert inv.items[..|inv.items|] == inv.items;
  }

  // ---------- After draft ----------

  // What may still change on an invoice that is no longer a draft: its status and its payment.
  predicate SameBill(a: Invoice, b: Invoice) {
    b == a.(status := b.status, paid := b.paid, paidAt := b.paidAt)
  }

  predicate CanMove(from: Status, to: Status) {
    || from == to
    || (from == Draft && to == Sent)
    || (from == Sent && to == Overdue)
    || to == Paid || to == PartiallyPaid || to == Void
  }

  lemma StepMoves(l: Ledger, e: Event, i: nat)
    requires i < |l.invoices|
    ensures var l' := Step(l, e).0;
            && i < |l'.invoices|
            && CanMove(l.invoices[i].status, l'.invoices[i].status)
            && (l.invoices[i].status != Draft ==> SameBill(l.invoices[i], l'.invoices[i]))
  {
  }

  lemma {:induction false} NoReturnToDraft(l: Ledger, es: seq<Event>, i: nat)
    requires i < |l.invoices| && l.invoices[i].status != Draft
    ensures var l' := Run(l, es);
            && i < |l'.invoices| && l'.invoices[i].status != Draft
            && SameBill(l.invoices[i], l'.invoices[i])
    decreases |es|
  {
    if es != [] {
      StepMoves(l, es[0], i);
      NoReturnToDraft(Step(l, es[0]).0, es[1..], i);
    }
  }

  // ---------- Payments ----------

  predicate WholeCents(amount: real) {
    (amount * 100.0).Floor as real == amount * 100.0
  }

  // What the status says about the stored payment; more if all payments are whole cents.
  ghost predicate PaymentMatches(inv: Invoice, whole: bool) {
    && (inv.status == Paid ==> inv.paid.Some? && inv.paid.value >= inv.total)
    && (inv.status == PartiallyPaid ==> inv.paid.Some? && inv.paid.value <= inv.total)
    && (inv.status == PartiallyPaid && whole ==> inv.paid.value < inv.total)
  }

  ghost predicate PaymentsMatch(l: Ledger, whole: bool) {
    forall i | 0 <= i < |l.invoices| :: PaymentMatches(l.invoices[i], whole)
  }

  // What is stored of a payment that does not cover the total: it is below the total unless the
  // payment is within half a cent of it.
  lemma StoredPartialPayment(amount: Positive, total: int)
    ensures amount * 100.0 >= total as real ==> RoundHalfAway(amount * 100.0) >= total
    ensures amount * 100.0 < total as real ==> RoundHalfAway(amount * 100.0) <= total
    ensures amount * 100.0 < total as real ==>
            (RoundHalfAway(amount * 100.0) < total <==> amount * 100.0 < total as real - 0.5)
  {
  }

  lemma PayingMatches(inv: Invoice, amount: Positive, at: Option<int>, now: int, whole: bool)
    requires whole ==> WholeCents(amount)
    ensures PaymentMatches(WithPayment(inv, amount, at, now), whole)
  {
    StoredPartialPayment(amount, inv.total);
  }

  lemma StepKeepsPayments(l: Ledger, e: Event, whole: bool)
    requires PaymentsMatch(l, whole)
    requires e.Pay? && whole ==> WholeCents(e.amount)
    ensures PaymentsMatch(Step(l, e).0, whole)
  {
    var l' := Step(l, e).0;
    match e
    case Pay(tenant, _, id, amount, at, now) =>
      if l' != l {
        PayingMatches(l.invoices[id], amount, at, now, whole);
      }
    case AddItem(tenant, id, quantity, price) =>
      if l' != l {
        assert WithItem(l.invoices[id], quantity, price).status == Draft;
      }
    case _ =>
  }

  lemma {:induction false} RunKeepsPayments(l: Ledger, es: seq<Event>, whole: bool)
    requires PaymentsMatch(l, whole)
    requires whole ==> forall k | 0 <= k < |es| && es[k].Pay? :: WholeCents(es[k].amount)
    ensures PaymentsMatch(Run(l, es), whole)
    decreases |es|
  {
    if es != [] {
      StepKeepsPayments(l, es[0], whole);
      RunKeepsPayments(Step(l, es[0]).0, es[1..], whole);
    }
  }

  lemma StatusTellsPayment(es: seq<Event>, i: nat)
    requires i < |Run(EMPTY, es).invoices|
    ensures PaymentMatches(Run(EMPTY, es).invoices[i],
              forall k | 0 <= k < |es| && es[k].Pay? :: WholeCents(es[k].amount))
  {
    RunKeepsPayments(EMPTY, es, forall k | 0 <= k < |es| && es[k].Pay? :: WholeCents(es[k].amount));
  }

  // Payments overwrite: a second payment leaves what it would have left alone.
  lemma PaymentsOverwrite(l: Ledger, first: Event, second: Event)
    requires first.Pay? && second.Pay? && first.id == second.id && first.tenant == second.tenant
    requires second.authorized
    ensures Step(Step(l, first).0, second) == Step(l, second)
  {
    if first.authorized && Visible(l, first.tenant, first.id) {
      var i := first.id;
      assert Step(Step(l, first).0, second).0.invoices == Step(l, second).0.invoices;
    }
  }

  // ---------- The sweep ----------

  lemma LaterSweepAbsorbs(invoices: seq<Invoice>, d1: int, d2: int)
    requires d1 <= d2
    ensures Swept(Swept(invoices, d1), d2) == Swept(invoices, d2)
  {
  }

  // ---------- Numbers ----------

  // The numbers drawn for a tenant in a year over a run.
  function Draws(es: seq<Event>, tenant: nat, year: nat): nat {
    if es == [] then 0
    else
      (if es[0].Create? && es[0].authorized && es[0].tenant == tenant && es[0].year == year then 1 else 0) +
      Draws(es[1..], tenant, year)
  }

  lemma {:induction false} CounterCountsDraws(l: Ledger, es: seq<Event>, tenant: nat, year: nat)
    ensures Count(Run(l, es).counter, tenant, year) == Count(l.counter, tenant, year) + Draws(es, tenant, year)
    decreases |es|
  {
    if es != [] {
      CounterCountsDraws(Step(l, es[0]).0, es[1..], tenant, year);
    }
  }

  // The n-th number drawn for a tenant in a year is n.
  lemma NthNumberIsN(es: seq<Event>, e: Event)
    requires e.Create? && e.authorized && e.saved
    ensures Step(Run(EMPTY, es), e).1 == Created(Print(e.year, Draws(es, e.tenant, e.year) + 1))
  {
    CounterCountsDraws(EMPTY, es, e.tenant, e.year);
  }

  ghost predicate NumbersDistinct(l: Ledger) {
    && (forall i | 0 <= i < |l.invoices| ::
          var p := Parse(l.invoices[i].number);
          p.Some? && 1 <= p.value.1 <= Count(l.counter, l.invoices[i].tenant, p.value.0))
    && (forall i, j | 0 <= i < j < |l.invoices| && l.invoices[i].tenant == l.invoices[j].tenant ::
          l.invoices[i].number != l.invoices[j].number)
  }

  lemma DrawKeepsNumbers(l: Ledger, counter: map<(nat, nat), nat>)
    requires NumbersDistinct(l)
    requires forall tenant: nat, year: nat :: Count(l.counter, tenant, year) <= Count(counter, tenant, year)
    ensures NumbersDistinct(l.(counter := counter))
  {
  }

  lemma InsertKeepsNumbers(l: Ledger, inv: Invoice, year: nat, n: nat)
    requires NumbersDistinct(l) && Parse(inv.number) == Some((year, n)) && 1 <= n <= Count(l.counter, inv.tenant, year)
    requires forall i | 0 <= i < |l.invoices| && l.invoices[i].tenant == inv.tenant ::
               l.invoices[i].number != inv.number
    ensures NumbersDistinct(l.(invoices := l.invoices + [inv]))
  {
  }

  lemma CreateKeepsNumbers(l: Ledger, tenant: nat, year: nat, inv: Invoice)
    requires NumbersDistinct(l)
    requires var n := Count(l.counter, tenant, year) + 1; inv.tenant == tenant && inv.number == Print(year, n)
    ensures var l' := l.(counter := l.counter[(tenant, year) := Count(l.counter, tenant, year) + 1]);
            NumbersDistinct(l') && NumbersDistinct(l'.(invoices := l.invoices + [inv]))
  {
    var n := Count(l.counter, tenant, year) + 1;
    var l' := l.(counter := l.counter[(tenant, year) := n]);
    ParsePrint(year, n);
    DrawKeepsNumbers(l, l'.counter);
    InsertKeepsNumbers(l', inv, year, n);
  }

  // The other handlers change no tenant and no number.
  lemma SameNumbers(l: Ledger, l': Ledger)
    requires NumbersDistinct(l) && l'.counter == l.counter && |l'.invoices| == |l.invoices|
    requires forall i | 0 <= i < |l.invoices| ::
               l'.invoices[i].number == l.invoices[i].number && l'.invoices[i].tenant == l.invoices[i].tenant
    ensures NumbersDistinct(l')
  {
  }

  lemma OthersKeepNames(l: Ledger, e: Event)
    requires !e.Create?
    ensures var l' := Step(l, e).0;
            && l'.counter == l.counter && |l'.invoices| == |l.invoices|
            && forall i | 0 <= i < |l.invoices| ::
                 l'.invoices[i].number == l.invoices[i].number && l'.invoices[i].tenant == l.invoices[i].tenant
  {
  }

  lemma StepKeepsNumbers(l: Ledger, e: Event)
    requires NumbersDistinct(l)
    ensures NumbersDistinct(Step(l, e).0)
  {
    match e
    case Create(tenant, _, year, due, taxRate, _) =>
      var number := Print(year, Count(l.counter, tenant, year) + 1);
      CreateKeepsNumbers(l, tenant, year, NewInvoice(tenant, number, due, taxRate));
    case _ =>
      OthersKeepNames(l, e);
      SameNumbers(l, Step(l, e).0);
  }

  lemma {:induction false} RunKeepsNumbers(l: Ledger, es: seq<Event>)
    requires NumbersDistinct(l)
    ensures NumbersDistinct(Run(l, es))
    decreases |es|
  {
    if es != [] {
      StepKeepsNumbers(l, es[0]);
      RunKeepsNumbers(Step(l, es[0]).0, es[1..]);
    }
  }

  lemma NumbersNeverRepeat(es: seq<Event>, i: nat, j: nat)
    requires i < j < |Run(EMPTY, es).invoices|
    requires Run(EMPTY, es).invoices[i].tenant == Run(EMPTY, es).invoices[j].tenant
    ensures Run(EMPTY, es).invoices[i].number != Run(EMPTY, es).invoices[j].number
  {
    RunKeepsNumbers(EMPTY, es);
  }
}
