// What each billing request is answered and what it changes, in the figures a customer would check.
module BillingAnswers {
  import opened Prelude
  import opened Money
  import opened InvoiceNumbers
  import opened Billing
  import opened InvoiceGuarantees

  // n is the value x to the nearest whole number; halfway between two it is the even one. There is
  // only one such number.
  predicate NearestEven(n: int, x: real) {
    var d := n as real - x;
    -0.5 <= d <= 0.5 && (d == 0.5 || d == -0.5 ==> n % 2 == 0)
  }

  lemma RoundingIsNearestEven(x: real)
    ensures NearestEven(RoundHalfEven(x), x)
    ensures forall n: int :: NearestEven(n, x) ==> n == RoundHalfEven(x)
  {
    NearestCent(x);
    forall n: int | NearestEven(n, x) ensures n == RoundHalfEven(x) {
      assert x.Floor == n || x.Floor == n - 1;
    }
  }

  // A stored payment is the paid cents to the nearest whole number, halves away from zero.
  lemma StoredPayment(amount: Positive)
    ensures var n := RoundHalfAway(amount * 100.0); n as real - 0.5 <= amount * 100.0 < n as real + 0.5
  {
  }

  // ---------- Who may, and on what ----------

  // The answers of every request, and what stays as it is. Only creations move the counter and add an
  // invoice; only the addressed invoice changes otherwise, and no request that is refused changes any.
  lemma Answers(l: Ledger, e: Event)
    ensures var (l', r) := Step(l, e);
            && (e.Create? ==> (r == Forbidden <==> !e.authorized) && (r == NotSaved <==> e.authorized && !e.saved)
                              && (r.Created? <==> e.authorized && e.saved))
            && (e.AddItem? || e.Send? || e.Pay? || e.MakeVoid? ==>
                  var allowed := e.AddItem? || e.authorized;
                  var found := e.id < |l.invoices| && l.invoices[e.id].tenant == e.tenant;
                  var open := e.Pay? || e.MakeVoid? || (found && l.invoices[e.id].status == Draft);
                  && (r == Forbidden <==> !allowed)
                  && (r == NotFound <==> allowed && !found)
                  && (r == NotDraft <==> allowed && found && !open)
                  && (r == Ok <==> allowed && found && open)
                  && (r != Ok ==> l' == l)
                  && l'.counter == l.counter && |l'.invoices| == |l.invoices|
                  && forall i | 0 <= i < |l.invoices| && i != e.id :: l'.invoices[i] == l.invoices[i])
            && (e.Create? && r == Forbidden ==> l' == l)
  {
  }

  // ---------- What an accepted request does ----------

  // A creation draws the next number of the tenant and year, even when it is not saved.
  lemma CreateDraws(l: Ledger, e: Event)
    requires e.Create? && e.authorized
    ensures var (l', r) := Step(l, e);
            var key := (e.tenant, e.year);
            && (key in l.counter ==> l'.counter == l.counter[key := l.counter[key] + 1])
            && (key !in l.counter ==> l'.counter == l.counter[key := 1])
            && (!e.saved ==> l'.invoices == l.invoices)
            && (e.saved ==>
                  && r.Created? && Parse(r.number) == Some((e.year, l'.counter[key]))
                  && l'.invoices == l.invoices + [Invoice(e.tenant, r.number, Draft, e.due, e.taxRate, [], 0, 0, 0, 0,
                                                          None, None)])
  {
    ParsePrint(e.year, Count(l.counter, e.tenant, e.year) + 1);
  }

  // The number is written INV-<year>-<n> in digits, n with zeros in front up to four digits.
  lemma NumberIsWritten(year: nat, n: nat) returns (y: string, t: string)
    ensures Print(year, n) == "INV-" + y + "-" + t
    ensures AllDigits(y) && Value(y) == year && |y| >= 1 && (|y| == 1 || y[0] != '0')
    ensures AllDigits(t) && Value(t) == n && |t| >= 4 && (|t| == 4 || t[0] != '0')
  {
    y, t := Digits(year), Pad4(Digits(n));
    DigitsRoundTrip(year);
    DigitsRoundTrip(n);
    if |Digits(n)| < 4 {
      LeadingZeros(4 - |Digits(n)|, Digits(n));
    }
  }

  // ---------- The figures ----------

  // Quantity times price, in cents; the rate's share of the subtotal; and both less the discount.
  predicate IsAmount(n: int, quantity: real, price: real) {
    NearestEven(n, quantity * price * 100.0)
  }

  predicate IsTax(n: int, subtotal: int, rate: real) {
    NearestEven(n, subtotal as real * rate)
  }

  predicate IsTotal(n: int, subtotal: int, rate: real, discount: int) {
    NearestEven(n, subtotal as real + subtotal as real * rate - discount as real)
  }

  lemma LineAmount(quantity: Positive, price: Positive, k: nat)
    ensures IsAmount(NewItem(quantity, price, k).amount, quantity, price)
  {
    RoundingIsNearestEven(quantity * price * 100.0);
  }

  lemma Figures(inv: Invoice)
    requires FiguresMatch(inv)
    ensures IsTax(inv.tax, inv.subtotal, inv.taxRate)
    ensures IsTotal(inv.total, inv.subtotal, inv.taxRate, inv.discount)
  {
    RoundingIsNearestEven(RawTax(inv.subtotal, inv.taxRate));
    RoundingIsNearestEven(inv.subtotal as real + RawTax(inv.subtotal, inv.taxRate) - inv.discount as real);
  }

  lemma LineIsAppended(inv: Invoice, quantity: Positive, price: Positive)
    requires FiguresMatch(inv)
    ensures var b, item := WithItem(inv, quantity, price), NewItem(quantity, price, |inv.items|);
            && b.items == inv.items + [item] && b.subtotal == inv.subtotal + item.amount && FiguresMatch(b)
            && b == inv.(items := b.items, subtotal := b.subtotal, tax := b.tax, total := b.total)
  {
    var item := NewItem(quantity, price, |inv.items|);
    assert (inv.items + [item])[..|inv.items|] == inv.items;
  }

  // An added line carries quantity times price to the nearest cent, stands last, and raises the
  // subtotal by its amount; tax and total follow.
  ghost predicate LineAdded(a: Invoice, b: Invoice, quantity: Positive, price: Positive) {
    && |b.items| == |a.items| + 1 && b.items[..|a.items|] == a.items
    && var item := b.items[|a.items|];
    && item.quantity == quantity && item.price == price && item.sortOrder == |a.items|
    && IsAmount(item.amount, quantity, price)
    && b.subtotal == a.subtotal + item.amount
    && IsTax(b.tax, b.subtotal, a.taxRate)
    && IsTotal(b.total, b.subtotal, a.taxRate, a.discount)
    && b == a.(items := b.items, subtotal := b.subtotal, tax := b.tax, total := b.total)
  }

  lemma WithItemAddsLine(inv: Invoice, quantity: Positive, price: Positive)
    requires FiguresMatch(inv)
    ensures LineAdded(inv, WithItem(inv, quantity, price), quantity, price)
  {
    LineIsAppended(inv, quantity, price);
    LineAmount(quantity, price, |inv.items|);
    Figures(WithItem(inv, quantity, price));
  }

  // Every accepted line of every run.
  lemma AddedLine(es: seq<Event>, e: Event)
    requires e.AddItem? && Step(Run(EMPTY, es), e).1 == Ok
    ensures var l := Run(EMPTY, es);
            LineAdded(l.invoices[e.id], Step(l, e).0.invoices[e.id], e.quantity, e.price)
  {
    var l := Run(EMPTY, es);
    RunKeepsSound(EMPTY, es);
    assert Sound(l.invoices[e.id]);
    WithItemAddsLine(l.invoices[e.id], e.quantity, e.price);
  }

  // The products of quantity and price, in cents, before any rounding.
  function Products(items: seq<Item>): real {
    if items == [] then 0.0
    else
      var n := |items| - 1;
      Products(items[..n]) + items[n].quantity * items[n].price * 100.0
  }

  lemma {:induction false} ExactCentsAreProducts(items: seq<Item>)
    ensures ExactCents(items) == Products(items)
  {
    if items != [] {
      ExactCentsAreProducts(items[..|items| - 1]);
    }
  }

  // In every run the subtotal of n items is at most n half-cents from the sum of their products.
  lemma SubtotalIsNearProducts(es: seq<Event>, i: nat)
    requires i < |Run(EMPTY, es).invoices|
    ensures var inv := Run(EMPTY, es).invoices[i];
            -0.5 * |inv.items| as real <= inv.subtotal as real - Products(inv.items) <= 0.5 * |inv.items| as real
  {
    SubtotalIsExactAndNear(es, i);
    ExactCentsAreProducts(Run(EMPTY, es).invoices[i].items);
  }

  // ---------- Payments, status and the sweep ----------

  // A payment replaces what was recorded before, whatever the status; it settles the invoice exactly
  // if it covers the total.
  lemma RecordedPayment(l: Ledger, e: Event)
    requires e.Pay? && Step(l, e).1 == Ok
    ensures var a, b := l.invoices[e.id], Step(l, e).0.invoices[e.id];
            && b == a.(status := b.status, paid := b.paid, paidAt := b.paidAt)
            && b.status == (if a.total as real <= e.amount * 100.0 then Paid else PartiallyPaid)
            && b.paid.Some? && b.paid.value as real - 0.5 <= e.amount * 100.0 < b.paid.value as real + 0.5
            && b.paidAt == Some(if e.at.Some? then e.at.value else e.now)
  {
  }

  // Sending and voiding change the status alone.
  lemma SentOrVoided(l: Ledger, e: Event)
    requires (e.Send? || e.MakeVoid?) && Step(l, e).1 == Ok
    ensures var a, b := l.invoices[e.id], Step(l, e).0.invoices[e.id];
            b == a.(status := if e.Send? then Sent else Void)
  {
  }

  // The sweep marks the sent invoices whose due date has passed, of every tenant, and nothing else.
  lemma SweepMarks(l: Ledger, today: int)
    ensures var (l', r) := Step(l, Sweep(today));
            && r == Ok && l'.counter == l.counter && |l'.invoices| == |l.invoices|
            && forall i | 0 <= i < |l.invoices| ::
                 var a := l.invoices[i];
                 l'.invoices[i] == if a.status == Sent && a.due < today then a.(status := Overdue) else a
  {
  }
}
