/**
  The two loops of src/treasury/treasury-reconciliation.handler.ts:190-252, which rewrite
  a program's reservations against the snapshot of a reconciliation message.
 */
module Snapshot {
  import opened Wrappers
  import opened Tables
  import opened Messages
  import opened MoneyLaws

  /** The program as the handler read it, and the message being applied. */
  datatype Context = Context(currency: Currency, exponent: int, message: MessageId)

  predicate AllWhole(items: seq<Item>) {
    forall i | 0 <= i < |items| :: items[i].amount.Whole?
  }

  function Amount(item: Item): int {
    if item.amount.Whole? then item.amount.n else 0
  }

  function Total(items: seq<Item>): int {
    if items == [] then 0 else Total(items[..|items| - 1]) + Amount(items[|items| - 1])
  }

  function Invoices(items: seq<Item>): set<InvoiceId> {
    set i | 0 <= i < |items| :: items[i].invoice
  }

  predicate Distinct(items: seq<Item>) {
    forall i, j | 0 <= i < j < |items| :: items[i].invoice != items[j].invoice
  }

  /** reservationRepository.insert, as the handler calls it. */
  function InsertedRow(c: Context, item: Item): Reservation {
    Reservation(item.currency, c.exponent, Amount(item), c.currency, c.exponent, Amount(item),
                ONE, TreasuryRate, Active, Treasury, Some(c.message))
  }

  /** updateFromReconciliation: the rate, its source and the program's columns stay. */
  function UpdatedRow(c: Context, row: Reservation, item: Item): Reservation {
    row.(reserved := Amount(item), invoiceAmount := Amount(item), invoiceCurrency := item.currency,
         invoiceExponent := c.exponent, status := Active)
  }

  /** markReconciled */
  function ReconciledRow(row: Reservation, message: MessageId): Reservation {
    row.(status := Reconciled, reconciliation := Some(message))
  }

  /**
    One turn of the first loop. The handler looks invoices up in the rows it read before
    the loop; the unique index looks at the table as it is now.
   */
  function WriteItem(c: Context, before: Rows, rows: Rows, item: Item): Option<Rows>
    requires before.Keys <= rows.Keys
  {
    var k := item.invoice;
    if k !in before then
      if k in rows || !ReservationChecks(InsertedRow(c, item)) then None
      else Some(rows[k := InsertedRow(c, item)])
    else if before[k].status.Released? then Some(rows)
    else
      var row := UpdatedRow(c, rows[k], item);
      if ReservationChecks(row) then Some(rows[k := row]) else None
  }

  /** The first loop; None when a statement violates a constraint. */
  function WriteItems(c: Context, before: Rows, items: seq<Item>): (r: Option<Rows>)
    ensures r.Some? ==> before.Keys <= r.value.Keys
  {
    if items == [] then Some(before)
    else
      var rows := WriteItems(c, before, items[..|items| - 1]);
      if rows.None? then None else WriteItem(c, before, rows.value, items[|items| - 1])
  }

  /** The rows the second loop marks. */
  predicate Absent(before: Rows, snapshot: set<InvoiceId>, k: InvoiceId) {
    k in before && before[k].status.Active? && k !in snapshot
  }

  /** The second loop. */
  function MarkAbsent(before: Rows, rows: Rows, snapshot: set<InvoiceId>, message: MessageId): (r: Rows)
    ensures r.Keys == rows.Keys
  {
    map k | k in rows ::
      if Absent(before, snapshot, k) then ReconciledRow(rows[k], message) else rows[k]
  }

  function InsertedCount(before: Rows, items: seq<Item>): nat {
    if items == [] then 0
    else
      var k := items[|items| - 1].invoice;
      InsertedCount(before, items[..|items| - 1]) + if k !in before then 1 else 0
  }

  function ConflictCount(before: Rows, items: seq<Item>): nat {
    if items == [] then 0
    else
      var k := items[|items| - 1].invoice;
      ConflictCount(before, items[..|items| - 1]) + if HitsReleased(before, k) then 1 else 0
  }

  function UpdatedCount(before: Rows, items: seq<Item>): nat {
    if items == [] then 0
    else
      var k := items[|items| - 1].invoice;
      UpdatedCount(before, items[..|items| - 1]) + if k in before && !HitsReleased(before, k) then 1 else 0
  }

  predicate HitsReleased(before: Rows, k: InvoiceId) {
    k in before && before[k].status.Released?
  }

  function AbsentSet(before: Rows, snapshot: set<InvoiceId>): set<InvoiceId> {
    set k | k in before && Absent(before, snapshot, k)
  }

  // ---------- what the loops mean ----------

  /** The last item for an invoice. */
  function Last(items: seq<Item>, k: InvoiceId): (i: nat)
    requires k in Invoices(items)
    ensures i < |items| && items[i].invoice == k
    ensures forall j | i < j < |items| :: items[j].invoice != k
  {
    if items[|items| - 1].invoice == k then |items| - 1
    else
      LastIsEarlier(items, k);
      Last(items[..|items| - 1], k)
  }

  lemma LastIsEarlier(items: seq<Item>, k: InvoiceId)
    requires k in Invoices(items) && items[|items| - 1].invoice != k
    ensures k in Invoices(items[..|items| - 1])
  {
    var i :| 0 <= i < |items| && items[i].invoice == k;
    assert items[..|items| - 1][i].invoice == k;
  }

  lemma InvoicesPrefix(items: seq<Item>)
    requires items != []
    ensures Invoices(items) == Invoices(items[..|items| - 1]) + {items[|items| - 1].invoice}
  {
    var init := items[..|items| - 1];
    forall k | k in Invoices(items)
      ensures k in Invoices(init) + {items[|items| - 1].invoice}
    {
      if k != items[|items| - 1].invoice {
        LastIsEarlier(items, k);
      }
    }
    forall k | k in Invoices(init)
      ensures k in Invoices(items)
    {
      var i :| 0 <= i < |init| && init[i].invoice == k;
      assert items[i].invoice == k;
    }
  }

  /** After the first loop a row the snapshot names holds the snapshot's last word on it. */
  lemma {:induction false} WrittenRow(c: Context, before: Rows, items: seq<Item>, k: InvoiceId)
    requires WriteItems(c, before, items).Some?
    ensures
      var rows := WriteItems(c, before, items).value;
      && (k in rows <==> k in before || k in Invoices(items))
      && (k in before && (HitsReleased(before, k) || k !in Invoices(items)) ==> rows[k] == before[k])
      && (k in before && !HitsReleased(before, k) && k in Invoices(items) ==>
            rows[k] == UpdatedRow(c, before[k], items[Last(items, k)]))
      && (k !in before && k in Invoices(items) ==> rows[k] == InsertedRow(c, items[Last(items, k)]))
  {
    if items != [] {
      WrittenRow(c, before, items[..|items| - 1], k);
      InvoicesPrefix(items);
    }
  }

  /** An item is written to the table, and so meets its CHECK constraints, unless its row is RELEASED. */
  predicate Writable(before: Rows, item: Item) {
    HitsReleased(before, item.invoice) || (0 < Amount(item) <= MAX_BIGINT && FitsChar3(item.currency))
  }

  /** What the loop leaves passes the checks. */
  lemma {:induction false} WrittenRowChecked(c: Context, before: Rows, items: seq<Item>, k: InvoiceId)
    requires WriteItems(c, before, items).Some?
    ensures
      var rows := WriteItems(c, before, items).value;
      && (k in rows && (k in before ==> ReservationChecks(before[k])) ==> ReservationChecks(rows[k]))
      && (k in rows && k in Invoices(items) && !HitsReleased(before, k) ==> ReservationChecks(rows[k]))
  {
    if items != [] {
      WrittenRowChecked(c, before, items[..|items| - 1], k);
      WrittenRow(c, before, items[..|items| - 1], k);
      InvoicesPrefix(items);
    }
  }

  /** The currencies already stored in CHAR(3) columns, of the program and of its rows. */
  predicate StoredCurrencies(c: Context, before: Rows) {
    FitsChar3(c.currency) && forall k | k in before :: FitsChar3(before[k].programCurrency)
  }

  /**
    The first loop aborts exactly on a non-positive amount, on a currency that is no CHAR(3)
    or on an unknown invoice listed twice.
   */
  lemma {:induction false} WriteItemsSucceeds(c: Context, before: Rows, items: seq<Item>)
    requires StoredCurrencies(c, before)
    ensures WriteItems(c, before, items).Some? <==>
            && (forall i | 0 <= i < |items| :: Writable(before, items[i]))
            && (forall i, j | 0 <= i < j < |items| :: items[i].invoice == items[j].invoice ==> items[i].invoice in before)
  {
    if items != [] {
      var init := items[..|items| - 1];
      WriteItemsSucceeds(c, before, init);
      assert forall i | 0 <= i < |init| :: items[i] == init[i];
      if WriteItems(c, before, init).Some? {
        LastItemSucceeds(c, before, items);
      }
    }
  }

  lemma LastItemSucceeds(c: Context, before: Rows, items: seq<Item>)
    requires StoredCurrencies(c, before) && items != [] && WriteItems(c, before, items[..|items| - 1]).Some?
    ensures
      var last := items[|items| - 1];
      WriteItems(c, before, items).Some? <==>
        && Writable(before, last)
        && (last.invoice !in before ==> forall i | 0 <= i < |items| - 1 :: items[i].invoice != last.invoice)
  {
    var init, last := items[..|items| - 1], items[|items| - 1];
    WrittenRow(c, before, init, last.invoice);
    assert forall i | 0 <= i < |init| :: items[i] == init[i];
    assert last.invoice in Invoices(init) <==> exists i | 0 <= i < |init| :: items[i].invoice == last.invoice;
  }

  /** Every item is counted once. */
  lemma {:induction false} CountsAddUp(before: Rows, items: seq<Item>)
    ensures InsertedCount(before, items) + UpdatedCount(before, items) + ConflictCount(before, items) == |items|
  {
    if items != [] {
      CountsAddUp(before, items[..|items| - 1]);
    }
  }

  lemma LastOfDistinct(items: seq<Item>, i: nat)
    requires Distinct(items) && i < |items|
    ensures items[i].invoice in Invoices(items) && Last(items, items[i].invoice) == i
  {
  }

  /**
    The reservations an applied snapshot leaves: the listed invoices not RELEASED before
    are ACTIVE with the snapshot's amounts, every other ACTIVE row is RECONCILED, and no
    other row changes.
   */
  lemma {:induction false} SnapshotMeaning(c: Context, before: Rows, items: seq<Item>)
    requires Distinct(items) && WriteItems(c, before, items).Some?
    ensures
      var after := MarkAbsent(before, WriteItems(c, before, items).value, Invoices(items), c.message);
      && after.Keys == before.Keys + Invoices(items)
      && (forall k | k in after ::
            after[k].status.Active? <==> k in Invoices(items) && !HitsReleased(before, k))
      && (forall i | 0 <= i < |items| && !HitsReleased(before, items[i].invoice) ::
            after[items[i].invoice].reserved == Amount(items[i]))
      && (forall k | k in before && k !in Invoices(items) && before[k].status.Active? ::
            after[k] == ReconciledRow(before[k], c.message))
      && (forall k | k in before && (HitsReleased(before, k) || (k !in Invoices(items) && !before[k].status.Active?)) ::
            after[k] == before[k])
  {
    var rows := WriteItems(c, before, items).value;
    forall k {
      WrittenRow(c, before, items, k);
    }
    forall i | 0 <= i < |items| && !HitsReleased(before, items[i].invoice)
      ensures rows[items[i].invoice].reserved == Amount(items[i])
    {
      LastOfDistinct(items, i);
    }
  }
}
