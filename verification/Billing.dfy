// Invoices: line items and totals, numbering, the status machine, payments and the overdue sweep.
module Billing {
  import opened Prelude
  import opened Money
  import opened InvoiceNumbers

  type Positive = r: real | r > 0.0 witness 1.0

  datatype Status = Draft | Sent | PartiallyPaid | Paid | Overdue | Void

  // Quantity and price are as submitted; the amount and every invoice figure are whole cents.
  datatype Item = Item(quantity: Positive, price: Positive, amount: int, sortOrder: nat)

  datatype Invoice = Invoice(
    tenant: nat, number: string, status: Status, due: int, taxRate: real, items: seq<Item>,
    subtotal: int, tax: int, discount: int, total: int, paid: Option<int>, paidAt: Option<int>)

  // An invoice's position is its identifier. The counter lives in the process, keyed by tenant and year.
  datatype Ledger = Ledger(invoices: seq<Invoice>, counter: map<(nat, nat), nat>)

  // `saved` is whether the transaction of a creation commits; the counter moves either way.
  datatype Event =
    | Create(tenant: nat, authorized: bool, year: nat, due: int, taxRate: real, saved: bool)
    | AddItem(tenant: nat, id: nat, quantity: Positive, price: Positive)
    | Send(tenant: nat, authorized: bool, id: nat)
    | Pay(tenant: nat, authorized: bool, id: nat, amount: Positive, at: Option<int>, now: int)
    | MakeVoid(tenant: nat, authorized: bool, id: nat)
    | Sweep(today: int)

  datatype Outcome = Ok | Created(number: string) | NotSaved | Forbidden | NotFound | NotDraft

  // ---------- Figures ----------

  function SumAmounts(items: seq<Item>): int {
    if items == [] then 0 else SumAmounts(items[..|items| - 1]) + items[|items| - 1].amount
  }

  ghost predicate FiguresMatch(inv: Invoice) {
    var raw := RawTax(inv.subtotal, inv.taxRate);
    && inv.subtotal == SumAmounts(inv.items)
    && inv.tax == RoundHalfEven(raw)
    && inv.total == TotalOf(inv.subtotal, raw, inv.discount)
  }

  function Recalculated(inv: Invoice): Invoice {
    var subtotal := SumAmounts(inv.items);
    var raw := RawTax(subtotal, inv.taxRate);
    inv.(subtotal := subtotal, tax := RoundHalfEven(raw), total := TotalOf(subtotal, raw, inv.discount))
  }

  function NewItem(quantity: Positive, price: Positive, sortOrder: nat): Item {
    Item(quantity, price, RoundHalfEven(ExactAmount(quantity, price)), sortOrder)
  }

  function WithItem(inv: Invoice, quantity: Positive, price: Positive): Invoice {
    Recalculated(inv.(items := inv.items + [NewItem(quantity, price, |inv.items|)]))
  }

  function WithPayment(inv: Invoice, amount: Positive, at: Option<int>, now: int): Invoice {
    inv.(paid := Some(RoundHalfAway(amount * 100.0)),
         paidAt := if at.Some? then at else Some(now),
         status := if amount * 100.0 >= inv.total as real then Paid else PartiallyPaid)
  }

  predicate IsOverdue(inv: Invoice, today: int) {
    inv.status == Sent && inv.due < today
  }

  function Swept(invoices: seq<Invoice>, today: int): seq<Invoice> {
    seq(|invoices|, i requires 0 <= i < |invoices| =>
      if IsOverdue(invoices[i], today) then invoices[i].(status := Overdue) else invoices[i])
  }

  // ---------- Handlers as functions of the ledger ----------

  function Count(counter: map<(nat, nat), nat>, tenant: nat, year: nat): nat {
    if (tenant, year) in counter then counter[(tenant, year)] else 0
  }

  function NewInvoice(tenant: nat, number: string, due: int, taxRate: real): Invoice {
    Invoice(tenant, number, Draft, due, taxRate, [], 0, 0, 0, 0, None, None)
  }

  predicate Visible(l: Ledger, tenant: nat, id: nat) {
    id < |l.invoices| && l.invoices[id].tenant == tenant
  }

  function Replace(l: Ledger, id: nat, inv: Invoice): Ledger
    requires id < |l.invoices|
  {
    l.(invoices := l.invoices[id := inv])
  }

  function Step(l: Ledger, e: Event): (Ledger, Outcome) {
    match e
    case Create(tenant, authorized, year, due, taxRate, saved) =>
      if !authorized then (l, Forbidden)
      else
        var n := Count(l.counter, tenant, year) + 1;
        var number := Print(year, n);
        var l' := l.(counter := l.counter[(tenant, year) := n]);
        if !saved then (l', NotSaved)
        else (l'.(invoices := l.invoices + [NewInvoice(tenant, number, due, taxRate)]), Created(number))
    case AddItem(tenant, id, quantity, price) =>
      if !Visible(l, tenant, id) then (l, NotFound)
      else if l.invoices[id].status != Draft then (l, NotDraft)
      else (Replace(l, id, WithItem(l.invoices[id], quantity, price)), Ok)
    case Send(tenant, authorized, id) =>
      if !authorized then (l, Forbidden)
      else if !Visible(l, tenant, id) then (l, NotFound)
      else if l.invoices[id].status != Draft then (l, NotDraft)
      else (Replace(l, id, l.invoices[id].(status := Sent)), Ok)
    case Pay(tenant, authorized, id, amount, at, now) =>
      if !authorized then (l, Forbidden)
      else if !Visible(l, tenant, id) then (l, NotFound)
      else (Replace(l, id, WithPayment(l.invoices[id], amount, at, now)), Ok)
    case MakeVoid(tenant, authorized, id) =>
      if !authorized then (l, Forbidden)
      else if !Visible(l, tenant, id) then (l, NotFound)
      else (Replace(l, id, l.invoices[id].(status := Void)), Ok)
    case Sweep(today) =>
      (l.(invoices := Swept(l.invoices, today)), Ok)
  }

  function Run(l: Ledger, es: seq<Event>): Ledger
    decreases |es|
  {
    if es == [] then l else Run(Step(l, es[0]).0, es[1..])
  }

  const EMPTY: Ledger := Ledger([], map[])

  // ---------- The service ----------

  class BillingService {
    var invoices: seq<Invoice>
    var counter: map<(nat, nat), nat>

    function State(): Ledger
      reads this
    {
      Ledger(invoices, counter)
    }

    constructor ()
      ensures State() == EMPTY
    {
      invoices, counter := [], map[];
    }

    method NextInvoiceNumber(tenant: nat, year: nat) returns (number: string)
      modifies this`counter
      ensures var n := Count(old(counter), tenant, year) + 1;
              counter == old(counter)[(tenant, year) := n] && number == Print(year, n)
    {
      var key := (tenant, year);
      counter := counter[key := (if key in counter then counter[key] else 0) + 1];
      number := "INV-" + Digits(year) + "-" + Pad4(Digits(counter[key]));
    }

    method RecalculateTotals(inv: Invoice) returns (r: Invoice)
      ensures r == Recalculated(inv) && FiguresMatch(r)
    {
      var subtotal := 0;
      for i := 0 to |inv.items|
        invariant subtotal == SumAmounts(inv.items[..i])
      {
        assert inv.items[..i + 1][..i] == inv.items[..i];
        subtotal := subtotal + inv.items[i].amount;
      }
      assert inv.items[..|inv.items|] == inv.items;
      var tax := RawTax(subtotal, inv.taxRate);
      r := inv.(subtotal := subtotal);
      r := r.(tax := RoundHalfEven(tax));
      r := r.(total := TotalOf(subtotal, tax, inv.discount));
    }

    method CreateInvoice(tenant: nat, authorized: bool, year: nat, due: int, taxRate: real, saved: bool)
      returns (r: Outcome)
      modifies this
      ensures (State(), r) == Step(old(State()), Create(tenant, authorized, year, due, taxRate, saved))
    {
      if !authorized {
        return Forbidden;
      }
      var number := NextInvoiceNumber(tenant, year);
      if !saved {
        return NotSaved;
      }
      invoices := invoices + [Invoice(tenant, number, Draft, due, taxRate, [], 0, 0, 0, 0, None, None)];
      return Created(number);
    }

    method AddLineItem(tenant: nat, id: nat, quantity: Positive, price: Positive) returns (r: Outcome)
      modifies this
      ensures (State(), r) == Step(old(State()), AddItem(tenant, id, quantity, price))
    {
      if id >= |invoices| || invoices[id].tenant != tenant {
        return NotFound;
      }
      var inv := invoices[id];
      if inv.status != Draft {
        return NotDraft;
      }
      var amount := RoundHalfEven(ExactAmount(quantity, price));
      inv := inv.(items := inv.items + [Item(quantity, price, amount, |inv.items|)]);
      inv := RecalculateTotals(inv);
      invoices := invoices[id := inv];
      return Ok;
    }

    method SendInvoice(tenant: nat, authorized: bool, id: nat) returns (r: Outcome)
      modifies this
      ensures (State(), r) == Step(old(State()), Send(tenant, authorized, id))
    {
      if !authorized {
        return Forbidden;
      }
      if id >= |invoices| || invoices[id].tenant != tenant {
        return NotFound;
      }
      if invoices[id].status != Draft {
        return NotDraft;
      }
      invoices := invoices[id := invoices[id].(status := Sent)];
      return Ok;
    }

    method RecordPayment(tenant: nat, authorized: bool, id: nat, amount: Positive, at: Option<int>, now: int)
      returns (r: Outcome)
      modifies this
      ensures (State(), r) == Step(old(State()), Pay(tenant, authorized, id, amount, at, now))
    {
      if !authorized {
        return Forbidden;
      }
      if id >= |invoices| || invoices[id].tenant != tenant {
        return NotFound;
      }
      var inv := invoices[id];
      inv := inv.(paid := Some(RoundHalfAway(amount * 100.0)));
      inv := inv.(paidAt := if at.Some? then at else Some(now));
      if amount * 100.0 >= inv.total as real {
        inv := inv.(status := Paid);
      } else {
        inv := inv.(status := PartiallyPaid);
      }
      invoices := invoices[id := inv];
      return Ok;
    }

    method VoidInvoice(tenant: nat, authorized: bool, id: nat) returns (r: Outcome)
      modifies this
      ensures (State(), r) == Step(old(State()), MakeVoid(tenant, authorized, id))
    {
      if !authorized {
        return Forbidden;
      }
      if id >= |invoices| || invoices[id].tenant != tenant {
        return NotFound;
      }
      invoices := invoices[id := invoices[id].(status := Void)];
      return Ok;
    }

    // The daily sweep: it selects the overdue invoices of every tenant, then marks them one by one.
    method CheckOverdue(today: int)
      modifies this
      ensures State() == Step(old(State()), Sweep(today)).0
    {
      var overdue := [];
      for i := 0 to |invoices|
        invariant invoices == old(invoices) && counter == old(counter)
        invariant forall k | 0 <= k < |overdue| :: 0 <= overdue[k] < i && IsOverdue(invoices[overdue[k]], today)
        invariant forall j | 0 <= j < i && IsOverdue(invoices[j], today) :: j in overdue
      {
        if invoices[i].status == Sent && invoices[i].due < today {
          overdue := overdue + [i];
        }
      }
      for k := 0 to |overdue|
        invariant |invoices| == |old(invoices)| && counter == old(counter)
        invariant forall j | 0 <= j < |invoices| ::
                    invoices[j] == if j in overdue[..k] then old(invoices)[j].(status := Overdue) else old(invoices)[j]
      {
        var i := overdue[k];
        invoices := invoices[i := invoices[i].(status := Overdue)];
        assert overdue[..k + 1] == overdue[..k] + [i];
      }
      assert overdue[..|overdue|] == overdue;
      assert invoices == Swept(old(invoices), today);
    }
  }
}
