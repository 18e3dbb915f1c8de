/**
  What the treasury messages do, column by column, and exactly when they are applied,
  recorded without effect, or rejected: in terms of the message and the tables before.
 */
module TreasuryEffects {
  import opened Wrappers
  import opened Tables
  import opened Messages
  import opened Snapshot
  import opened Transactions
  import opened Accounts

  predicate Bigint(n: int) {
    -0x8000_0000_0000_0000 <= n < 0x8000_0000_0000_0000
  }

  /** The version guard: the program has a treasury version, and the message is not newer. */
  predicate NotNewer(p: Program, e: Event) {
    p.treasuryVersion.Some? && e.version.Whole? && e.version.n <= p.treasuryVersion.value
  }

  /** What a message asks for fits the program's columns. */
  predicate Storable(e: Event) {
    && e.version.Whole? && Bigint(e.version.n)
    && e.limit.Whole? && 0 <= e.limit.n < 0x8000_0000_0000_0000
    && -0x8000 <= e.exponent < 0x8000
    && (forall i | 3 <= i < |e.currency| :: e.currency[i] == ' ')
  }

  /** The program takes over what the message says, with the given reserved amount. */
  predicate TakesOver(p: Program, q: Program, e: Event, reserved: int) {
    && e.limit.Whole? && e.version.Whole?
    && q.limit == e.limit.n && q.currency == e.currency && q.exponent == e.exponent
    && q.treasuryVersion == Some(e.version.n)
    && q.reserved == reserved
    && q.status == (if reserved > e.limit.n then ProgramOverLimit else ProgramActive)
    && q.version == p.version + 1
  }

  /** The program a message creates. */
  predicate Creates(q: Program, e: Event) {
    && e.limit.Whole? && e.version.Whole?
    && q == Program(e.currency, e.exponent, e.limit.n, 0, ProgramActive, 0, Some(e.version.n))
  }

  // ---------- capacity update ----------

  /** A capacity update: the limit and its ledger entry, booked in the currency the program has afterwards. */
  lemma UpdateBooks(a: Account, e: Event)
    requires e.CapacityUpdate? && WorkFor(Some(a), e).Work?
    ensures
      var Work(b, status, run) := WorkFor(Some(a), e);
      && b.rows == a.rows && run == None
      && (status == HandlerStatus.Stale <==> NotNewer(a.program, e))
      && (NotNewer(a.program, e) ==> b == a)
      && (!NotNewer(a.program, e) ==>
            && status == Applied && TakesOver(a.program, b.program, e, a.program.reserved)
            && b.ledger == a.ledger +
                 if b.program.limit == a.program.limit then []
                 else [LedgerEntry(TreasuryUpdateApplied(e.message), b.program.limit - a.program.limit, b.program.currency)])
  {
  }

  /** A capacity update for an unknown program creates it, and books its limit. */
  lemma UpdateCreates(e: Event)
    requires e.CapacityUpdate?
    ensures
      var work := WorkFor(None, e);
      && (work.Work? <==> Storable(e))
      && (work.Work? ==>
            && work.status == Applied && work.run == None
            && Creates(work.account.program, e) && work.account.rows == map[]
            && work.account.ledger == [LedgerEntry(ProgramCreated, e.limit.n, e.currency)])
  {
  }

  /** Exactly when a capacity update is handled; otherwise the handler throws. */
  lemma UpdateHandledIff(a: Account, e: Event)
    requires e.CapacityUpdate? && Kept(a)
    ensures WorkFor(Some(a), e).Work? <==> NotNewer(a.program, e) || Storable(e)
  {
  }

  // ---------- reconciliation: the verdict ----------

  /** Every item is in the message's currency, and they sum to what it declares. */
  predicate Consistent(e: Event)
    requires e.Reconciliation?
  {
    && (forall i | 0 <= i < |e.items| :: e.items[i].currency == e.currency)
    && e.declared == Whole(Total(e.items))
  }

  /** The verdict on a message for a program that exists. */
  lemma VerdictIff(a: Account, e: Event)
    requires e.Reconciliation? && WorkFor(Some(a), e).Work?
    ensures
      var status := WorkFor(Some(a), e).status;
      && (status == HandlerStatus.Stale <==> NotNewer(a.program, e))
      && (status == Applied <==> !NotNewer(a.program, e) && Consistent(e))
      && (status == Ignored <==> !NotNewer(a.program, e) && !Consistent(e))
  {
  }

  /** A message for an unknown program is never stale. */
  lemma VerdictOnUnknown(e: Event)
    requires e.Reconciliation? && WorkFor(None, e).Work?
    ensures WorkFor(None, e).status == if Consistent(e) then Applied else Ignored
  {
  }

  /** Exactly when the first loop meets no constraint: what is written fits, and no new invoice is listed twice. */
  predicate Loadable(rows: Rows, items: seq<Item>) {
    && (forall i | 0 <= i < |items| ::
          (items[i].invoice in rows && rows[items[i].invoice].status.Released?)
          || (items[i].amount.Whole? && 0 < items[i].amount.n < 0x8000_0000_0000_0000
              && forall j | 3 <= j < |items[i].currency| :: items[i].currency[j] == ' '))
    && (forall i, j | 0 <= i < j < |items| && items[i].invoice == items[j].invoice :: items[i].invoice in rows)
  }

  lemma ApplyHandledIff(a: Account, e: Event)
    requires e.Reconciliation? && e.version.Whole? && e.limit.Whole? && AllWhole(e.items)
    requires Kept(a)
    ensures ApplySnapshot(a, e).Work? <==>
              Storable(e) && 0 <= Total(e.items) < 0x8000_0000_0000_0000 && Loadable(a.rows, e.items)
  {
    WriteItemsSucceeds(Context(a.program.currency, a.program.exponent, e.message), a.rows, e.items);
  }

  /** Exactly when a reconciliation is handled; otherwise the handler throws. */
  lemma ReconciliationHandledIff(a: Account, e: Event)
    requires e.Reconciliation? && Kept(a)
    ensures
      WorkFor(Some(a), e).Work? <==>
        && e.version.Whole? && e.limit.Whole? && e.declared.Whole?
        && Bigint(e.limit.n) && Bigint(e.declared.n)
        && (NotNewer(a.program, e)
            || (&& (forall i | 0 <= i < |e.items| :: e.items[i].amount.Whole?)
                && (Consistent(e) ==> Storable(e) && e.declared.n >= 0 && Loadable(a.rows, e.items))))
  {
    if e.version.Whole? && e.limit.Whole? && AllWhole(e.items) {
      ApplyHandledIff(a, e);
    }
  }

  /** The same for a program that does not exist. */
  lemma UnknownHandledIff(e: Event)
    requires e.Reconciliation?
    ensures
      WorkFor(None, e).Work? <==>
        && Storable(e) && e.declared.Whole? && Bigint(e.declared.n)
        && (forall i | 0 <= i < |e.items| :: e.items[i].amount.Whole?)
        && (Consistent(e) ==> e.declared.n >= 0 && Loadable(map[], e.items))
  {
    if Storable(e) && AllWhole(e.items) {
      assert Kept(CreatedAccount(e));
      ApplyHandledIff(CreatedAccount(e), e);
    }
  }

  // ---------- reconciliation: the tables ----------

  /** What the verdicts do to program and ledger. */
  lemma ReconciliationBooks(a: Account, e: Event)
    requires e.Reconciliation? && WorkFor(Some(a), e).Work?
    ensures
      var Work(b, status, _) := WorkFor(Some(a), e);
      && (status != Applied ==> b == a)
      && (status == Applied ==>
            && e.declared.Whole? && TakesOver(a.program, b.program, e, e.declared.n)
            && var limitMoved, reservedMoved := b.program.limit - a.program.limit, b.program.reserved - a.program.reserved;
            && b.ledger == a.ledger +
                 if limitMoved == 0 && reservedMoved == 0 then []
                 else [LedgerEntry(TreasuryReconciliationApplied(e.message, limitMoved), reservedMoved, b.program.currency)])
  {
  }

  /** A reconciliation creates an unknown program even when it contradicts itself. */
  lemma ReconciliationCreates(e: Event)
    requires e.Reconciliation? && WorkFor(None, e).Work?
    ensures
      var Work(b, status, _) := WorkFor(None, e);
      && (status != Applied ==> Creates(b.program, e) && b.rows == map[] && b.ledger == [])
      && (status == Applied ==>
            && e.declared.Whole?
            && b.program == Program(e.currency, e.exponent, e.limit.n, e.declared.n,
                                    if e.declared.n > e.limit.n then ProgramOverLimit else ProgramActive,
                                    1, Some(e.version.n))
            && b.ledger == if e.declared.n == 0 then []
                           else [LedgerEntry(TreasuryReconciliationApplied(e.message, 0), e.declared.n, e.currency)])
  {
  }

  /** A listed row after an applied snapshot that was not RELEASED before. */
  lemma ListedColumns(a: Account, e: Event, k: InvoiceId)
    requires e.Reconciliation? && e.version.Whole? && e.limit.Whole? && ApplySnapshot(a, e).Work?
    requires k in Invoices(e.items) && !(k in a.rows && a.rows[k].status.Released?)
    ensures
      var rows := ApplySnapshot(a, e).account.rows;
      var item := e.items[Last(e.items, k)];
      && k in rows
      && var row := rows[k];
      && row.status == ReservationStatus.Active
      && item.amount == Whole(row.reserved) && row.invoiceAmount == row.reserved
      && row.invoiceCurrency == item.currency
      && row.invoiceExponent == a.program.exponent
      && (k in a.rows ==>
            && row.rate == a.rows[k].rate && row.rateSource == a.rows[k].rateSource
            && row.source == a.rows[k].source && row.reconciliation == a.rows[k].reconciliation
            && row.programCurrency == a.rows[k].programCurrency && row.programExponent == a.rows[k].programExponent)
      && (k !in a.rows ==>
            && row.rate == 10_000_000_000 && row.rateSource == TreasuryRate
            && row.source == Treasury && row.reconciliation == Some(e.message)
            && row.programCurrency == a.program.currency && row.programExponent == a.program.exponent)
  {
    var c := Context(a.program.currency, a.program.exponent, e.message);
    WrittenRow(c, a.rows, e.items, k);
    WrittenRowChecked(c, a.rows, e.items, k);
  }

  /** Every other row. */
  lemma UnlistedColumns(a: Account, e: Event, k: InvoiceId)
    requires e.Reconciliation? && e.version.Whole? && e.limit.Whole? && ApplySnapshot(a, e).Work?
    requires k !in Invoices(e.items) || (k in a.rows && a.rows[k].status.Released?)
    ensures
      var rows := ApplySnapshot(a, e).account.rows;
      && (k in rows <==> k in a.rows)
      && (k in a.rows ==>
            rows[k] == if a.rows[k].status.Active?
                       then a.rows[k].(status := ReservationStatus.Reconciled, reconciliation := Some(e.message))
                       else a.rows[k])
  {
    WrittenRow(Context(a.program.currency, a.program.exponent, e.message), a.rows, e.items, k);
  }

  /** An applied message runs the snapshot on the account before it. */
  lemma AppliedIsSnapshot(a: Account, e: Event)
    requires e.Reconciliation? && WorkFor(Some(a), e).Work? && WorkFor(Some(a), e).status == Applied
    ensures e.version.Whole? && e.limit.Whole? && WorkFor(Some(a), e) == ApplySnapshot(a, e)
  {
  }

  // ---------- the run ----------

  /** The positions of the items whose invoice has no row, a RELEASED row, and another row. */
  function NewItems(rows: Rows, items: seq<Item>): set<int> {
    set i | 0 <= i < |items| && items[i].invoice !in rows
  }

  function ReleasedItems(rows: Rows, items: seq<Item>): set<int> {
    set i | 0 <= i < |items| && items[i].invoice in rows && rows[items[i].invoice].status.Released?
  }

  function OtherItems(rows: Rows, items: seq<Item>): set<int> {
    set i | 0 <= i < |items| && items[i].invoice in rows && !rows[items[i].invoice].status.Released?
  }

  function MissingRows(rows: Rows, items: seq<Item>): set<InvoiceId> {
    set k | k in rows && rows[k].status.Active? && forall i | 0 <= i < |items| :: items[i].invoice != k
  }

  lemma {:induction false} InsertedIsCardinality(rows: Rows, items: seq<Item>)
    ensures InsertedCount(rows, items) == |NewItems(rows, items)|
  {
    if items != [] {
      var n := |items| - 1;
      InsertedIsCardinality(rows, items[..n]);
      assert NewItems(rows, items) == NewItems(rows, items[..n]) + if items[n].invoice !in rows then {n} else {};
    }
  }

  lemma {:induction false} ConflictIsCardinality(rows: Rows, items: seq<Item>)
    ensures ConflictCount(rows, items) == |ReleasedItems(rows, items)|
  {
    if items != [] {
      var n := |items| - 1;
      var k := items[n].invoice;
      ConflictIsCardinality(rows, items[..n]);
      assert ReleasedItems(rows, items)
          == ReleasedItems(rows, items[..n]) + if k in rows && rows[k].status.Released? then {n} else {};
    }
  }

  lemma {:induction false} UpdatedIsCardinality(rows: Rows, items: seq<Item>)
    ensures UpdatedCount(rows, items) == |OtherItems(rows, items)|
  {
    if items != [] {
      var n := |items| - 1;
      var k := items[n].invoice;
      UpdatedIsCardinality(rows, items[..n]);
      assert OtherItems(rows, items)
          == OtherItems(rows, items[..n]) + if k in rows && !rows[k].status.Released? then {n} else {};
    }
  }

  /** The run an applied snapshot records: the message, the account before, the differences and the counts. */
  lemma AppliedRunColumns(a: Account, e: Event)
    requires e.Reconciliation? && e.version.Whole? && e.limit.Whole? && ApplySnapshot(a, e).Work?
    ensures
      var Work(b, _, run) := ApplySnapshot(a, e);
      && run.Some?
      && run.value.program == e.program
      && run.value.treasuryLimit == e.limit.n && run.value.treasuryReserved == b.program.reserved
      && run.value.limitBefore == a.program.limit && run.value.reservedBefore == a.program.reserved
      && run.value.limitDifference == b.program.limit - a.program.limit
      && run.value.reservedDifference == b.program.reserved - a.program.reserved
      && run.value.status.AppliedRun?
      && run.value.status.items == |e.items|
      && run.value.status.inserted == |NewItems(a.rows, e.items)|
      && run.value.status.updated == |OtherItems(a.rows, e.items)|
      && run.value.status.conflicts == |ReleasedItems(a.rows, e.items)|
      && run.value.status.reconciled == |MissingRows(a.rows, e.items)|
  {
    InsertedIsCardinality(a.rows, e.items);
    ConflictIsCardinality(a.rows, e.items);
    UpdatedIsCardinality(a.rows, e.items);
    assert AbsentSet(a.rows, Invoices(e.items)) == MissingRows(a.rows, e.items);
  }

  /** The run of a message without effect, and why it had none. */
  lemma SkippedRunColumns(found: Option<Account>, e: Event)
    requires e.Reconciliation? && WorkFor(found, e).Work? && WorkFor(found, e).status != Applied
    ensures
      var Work(b, status, run) := WorkFor(found, e);
      && e.limit.Whole? && e.declared.Whole?
      && run.Some?
      && run.value.program == e.program
      && run.value.treasuryLimit == e.limit.n && run.value.treasuryReserved == e.declared.n
      && run.value.limitBefore == b.program.limit && run.value.reservedBefore == b.program.reserved
      && run.value.limitDifference == 0 && run.value.reservedDifference == 0
      && (status == HandlerStatus.Stale <==> run.value.status == StaleSkipped)
      && (status == Ignored ==>
            run.value.status ==
              ConflictRun(if exists i :: 0 <= i < |e.items| && e.items[i].currency != e.currency
                          then CurrencyMismatch else SumMismatch))
  {
  }

  // ---------- deduplication ----------

  /** What is answered, and what is recorded, for a message seen or unseen. */
  lemma DeliveryAnswers(db: Db, d: Delivery)
    ensures
      var r := Handle(db, d);
      var here := exists q :: q in db.processed && q.slot == d.slot;
      var elsewhere := exists q :: q in db.processed && q.message == d.event.message;
      var otherHash := exists q :: q in db.processed && q.message == d.event.message && q.hash != d.hash;
      && (here ==> r == Committed(db, Duplicate))
      && (!here && elsewhere ==> r == Committed(db, if otherHash then Ignored else Duplicate))
      && (!here && !elsewhere ==>
            var p := d.event.program;
            var work := WorkFor(if p in db.accounts then Some(db.accounts[p]) else None, d.event);
            && (r.Committed? <==> work.Work?)
            && (r.Committed? ==>
                  && r.status == work.status
                  && r.db.accounts == db.accounts[p := work.account]
                  && r.db.processed == db.processed +
                       {Processed(d.slot, d.event.message,
                                  if d.event.CapacityUpdate? then CapacityUpdated else ReconciliationSnapshot,
                                  p, d.hash)}
                  && r.db.runs == (if work.run.Some? && d.event.message !in db.runs
                                   then db.runs[d.event.message := work.run.value] else db.runs)))
  {
  }
}
