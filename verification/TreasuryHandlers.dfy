/**
  src/treasury/treasury-capacity-update.handler.ts and
  src/treasury/treasury-reconciliation.handler.ts, statement by statement.
 */
module TreasuryHandlers {
  import opened Wrappers
  import opened Tables
  import opened Messages
  import opened Programs
  import opened Snapshot
  import opened Transactions
  import opened Database

  /** BigInt(n) */
  function ToBigInt(n: Num): Result<int, ApiError> {
    if n.Whole? then Success(n.n) else Failure(UnsafeNumber)
  }

  /** Handling a message ends as the outcome says: with its state and status, or thrown. */
  predicate Ends(outcome: Outcome, r: Result<HandlerStatus, ApiError>, now: Db) {
    match outcome
    case Committed(db, status) => r == Success(status) && now == db
    case Aborted => r.Failure?
  }

  lemma PutTwice<K, V>(m: map<K, V>, k: K, v: V, w: V)
    ensures m[k := v][k := w] == m[k := w]
    ensures k in m ==> m[k := m[k]] == m
  {
  }

  class CapacityUpdateHandler {
    const store: Store

    constructor (store: Store)
      ensures this.store == store
    {
      this.store := store;
    }

    method Handle(d: Delivery) returns (r: Result<HandlerStatus, ApiError>)
      requires d.event.CapacityUpdate?
      modifies store
      ensures Ends(Transactions.Handle(old(store.State()), d), r, store.State())
    {
      var e := d.event;
      if SlotRecorded(store.processed, d.slot) {
        return Success(Duplicate);
      }
      if MessageRecorded(store.processed, e.message) {
        return Success(if RecordedDifferently(store.processed, e.message, d.hash) then Ignored else Duplicate);
      }
      var treasuryVersion :- ToBigInt(e.version);
      var program := store.FindProgram(e.program);
      if program.None? {
        var limit :- ToBigInt(e.limit);
        var created :- store.CreateFromTreasury(e.program, e.currency, e.exponent, limit, treasuryVersion);
        store.AppendLedger(e.program, LedgerEntry(ProgramCreated, limit, created.currency));
        assert store.accounts[e.program].ledger == [LedgerEntry(ProgramCreated, limit, e.currency)];
      } else {
        PutTwice(store.accounts, e.program, store.accounts[e.program], store.accounts[e.program]);
        if Programs.Stale(program.value, treasuryVersion) {
          var marked := store.MarkProcessed(d);
          assert marked.Success?;
          return Success(HandlerStatus.Stale);
        }
        var oldLimit := program.value.limit;
        var newLimit :- ToBigInt(e.limit);
        var updated :- store.ApplyCapacityUpdate(e.program, e.currency, e.exponent, newLimit, treasuryVersion);
        if newLimit != oldLimit {
          store.AppendLedger(e.program,
            LedgerEntry(TreasuryUpdateApplied(e.message), newLimit - oldLimit, updated.currency));
        }
        assert old(store.accounts)[e.program].ledger + [] == old(store.accounts)[e.program].ledger;
      }
      ghost var account := store.accounts[e.program];
      assert store.accounts == old(store.accounts)[e.program := account];
      var marked := store.MarkProcessed(d);
      assert marked.Success?;
      r := Success(HandlerStatus.Applied);
    }
  }

  class ReconciliationHandler {
    const store: Store

    constructor (store: Store)
      ensures this.store == store
    {
      this.store := store;
    }

    method Handle(d: Delivery) returns (r: Result<HandlerStatus, ApiError>)
      requires d.event.Reconciliation?
      modifies store
      ensures Ends(Transactions.Handle(old(store.State()), d), r, store.State())
    {
      var e := d.event;
      if SlotRecorded(store.processed, d.slot) {
        return Success(Duplicate);
      }
      if MessageRecorded(store.processed, e.message) {
        return Success(if RecordedDifferently(store.processed, e.message, d.hash) then Ignored else Duplicate);
      }
      var treasuryVersion :- ToBigInt(e.version);
      var treasuryLimit :- ToBigInt(e.limit);
      var declared :- ToBigInt(e.declared);

      var found := store.FindProgram(e.program);
      var justCreated := found.None?;
      var program: Program;
      if justCreated {
        program :- store.CreateFromTreasury(e.program, e.currency, e.exponent, treasuryLimit, treasuryVersion);
      } else {
        program := found.value;
      }

      ghost var account := store.accounts[e.program];
      assert store.accounts == old(store.accounts)[e.program := account];
      if !justCreated && Programs.Stale(program, treasuryVersion) {
        var _ :- store.InsertRun(e.message,
          Run(e.program, treasuryLimit, declared, program.limit, program.reserved, 0, 0, StaleSkipped));
        var marked := store.MarkProcessed(d);
        assert marked.Success?;
        return Success(HandlerStatus.Stale);
      }

      if !AllWhole(e.items) {
        return Failure(UnsafeNumber);
      }
      var total := Total(e.items);
      var mixed := MixedCurrencies(e);
      if mixed || total != declared {
        var _ :- store.InsertRun(e.message,
          Run(e.program, treasuryLimit, declared, program.limit, program.reserved, 0, 0,
              ConflictRun(if mixed then CurrencyMismatch else SumMismatch)));
        var marked := store.MarkProcessed(d);
        assert marked.Success?;
        return Success(Ignored);
      }
      r := Apply(d, program, treasuryVersion, treasuryLimit, total);
      if r.Success? {
        PutTwice(old(store.accounts), e.program, account, store.accounts[e.program]);
      }
    }

    /** Lines 174-310, on the account as the handler has it so far. */
    method Apply(d: Delivery, program: Program, treasuryVersion: int, treasuryLimit: int, total: int)
        returns (r: Result<HandlerStatus, ApiError>)
      requires d.event.Reconciliation?
      requires d.event.version == Whole(treasuryVersion) && d.event.limit == Whole(treasuryLimit)
      requires total == Total(d.event.items)
      requires d.event.program in store.accounts && store.accounts[d.event.program].program == program
      requires !SlotRecorded(store.processed, d.slot) && !MessageRecorded(store.processed, d.event.message)
      modifies store
      ensures
        match ApplySnapshot(old(store.accounts)[d.event.program], d.event)
        case Rejected => r.Failure?
        case Work(account, status, run) =>
          && r == Success(status)
          && store.State() == Db(old(store.accounts)[d.event.program := account],
                                 AddRun(old(store.runs), d.event.message, run),
                                 old(store.processed) + {Recorded(d)})
    {
      var e := d.event;
      var existing := store.FindAllReservations(e.program);
      var c := Context(program.currency, program.exponent, e.message);
      var counts :- WriteSnapshot(e, c, ByInvoice(existing));
      var (inserted, updated, conflicts) := counts;
      ghost var account := old(store.accounts)[e.program];
      ghost var written := WriteItems(c, account.rows, e.items).value;
      PutTwice(old(store.accounts), e.program, account.(rows := written), account);
      var reconciled := MarkMissing(e, existing);
      account := account.(rows := MarkAbsent(account.rows, written, Invoices(e.items), e.message));
      assert store.accounts == old(store.accounts)[e.program := account];

      r := Finish(d, program, treasuryVersion, treasuryLimit, total,
        AppliedRun(|e.items|, inserted, updated, reconciled, conflicts));
      if r.Success? {
        PutTwice(old(store.accounts), e.program, account, store.accounts[e.program]);
      }
    }

    /** Lines 254-310: the differences, the run, the ledger entry, the aggregate and the processed row. */
    method Finish(d: Delivery, program: Program, treasuryVersion: int, treasuryLimit: int, total: int, counts: RunStatus)
        returns (r: Result<HandlerStatus, ApiError>)
      requires d.event.Reconciliation?
      requires d.event.program in store.accounts && store.accounts[d.event.program].program == program
      requires !SlotRecorded(store.processed, d.slot) && !MessageRecorded(store.processed, d.event.message)
      modifies store
      ensures
        var e, a := d.event, old(store.accounts)[d.event.program];
        var limitDifference, reservedDifference := treasuryLimit - program.limit, total - program.reserved;
        var run := Run(e.program, treasuryLimit, total, program.limit, program.reserved, limitDifference,
                       reservedDifference, counts);
        var entries :=
          if reservedDifference == 0 && limitDifference == 0 then []
          else [LedgerEntry(TreasuryReconciliationApplied(e.message, limitDifference), reservedDifference, e.currency)];
        var updated := WithSnapshot(program, e.currency, e.exponent, treasuryLimit, total, treasuryVersion);
        if !RunChecks(run) || !ProgramChecks(updated) then r.Failure?
        else
          && r == Success(HandlerStatus.Applied)
          && store.State() == Db(old(store.accounts)[e.program := Account(updated, a.rows, a.ledger + entries)],
                                 AddRun(old(store.runs), e.message, Some(run)),
                                 old(store.processed) + {Recorded(d)})
    {
      var e := d.event;
      ghost var account := store.accounts[e.program];
      PutTwice(store.accounts, e.program, account, account);
      var limitDifference := treasuryLimit - program.limit;
      var reservedDifference := total - program.reserved;
      var _ :- store.InsertRun(e.message,
        Run(e.program, treasuryLimit, total, program.limit, program.reserved, limitDifference, reservedDifference, counts));
      if reservedDifference != 0 || limitDifference != 0 {
        store.AppendLedger(e.program,
          LedgerEntry(TreasuryReconciliationApplied(e.message, limitDifference), reservedDifference, e.currency));
      }
      assert account.ledger + [] == account.ledger;
      account := store.accounts[e.program];
      var _ :- store.ApplyReconciliation(e.program, e.currency, e.exponent, treasuryLimit, total, treasuryVersion);
      PutTwice(old(store.accounts), e.program, account, store.accounts[e.program]);
      var marked := store.MarkProcessed(d);
      assert marked.Success?;
      r := Success(HandlerStatus.Applied);
    }

    /** The first loop: every item of the snapshot. */
    method WriteSnapshot(e: Event, c: Context, existingByInvoice: Rows) returns (r: Result<(nat, nat, nat), ApiError>)
      requires e.Reconciliation? && e.program in store.accounts
      requires store.accounts[e.program].rows == existingByInvoice
      modifies store`accounts
      ensures
        match WriteItems(c, existingByInvoice, e.items)
        case None => r.Failure?
        case Some(rows) =>
          && r == Success((InsertedCount(existingByInvoice, e.items), UpdatedCount(existingByInvoice, e.items),
                           ConflictCount(existingByInvoice, e.items)))
          && store.accounts == old(store.accounts)[e.program := old(store.accounts)[e.program].(rows := rows)]
    {
      var insertedCount, updatedCount, conflictCount := 0, 0, 0;
      ghost var account := store.accounts[e.program];
      for i := 0 to |e.items|
        invariant e.program in store.accounts
        invariant WriteItems(c, existingByInvoice, e.items[..i]) == Some(store.accounts[e.program].rows)
        invariant store.accounts
               == old(store.accounts)[e.program := account.(rows := store.accounts[e.program].rows)]
        invariant insertedCount == InsertedCount(existingByInvoice, e.items[..i])
        invariant updatedCount == UpdatedCount(existingByInvoice, e.items[..i])
        invariant conflictCount == ConflictCount(existingByInvoice, e.items[..i])
      {
        var item := e.items[i];
        WriteStep(c, existingByInvoice, e.items, i);
        if item.invoice !in existingByInvoice {
          var _ :- store.InsertReservation(e.program, item.invoice, InsertedRow(c, item));
          insertedCount := insertedCount + 1;
          continue;
        }
        if existingByInvoice[item.invoice].status.Released? {
          conflictCount := conflictCount + 1;
          continue;
        }
        var current := store.FindReservation(e.program, item.invoice);
        var _ :- store.UpdateReservation(e.program, item.invoice, UpdatedRow(c, current.value, item));
        updatedCount := updatedCount + 1;
      }
      assert e.items[..|e.items|] == e.items;
      r := Success((insertedCount, updatedCount, conflictCount));
    }

    /** The second loop: every row read before the first one. */
    method MarkMissing(e: Event, existing: seq<(InvoiceId, Reservation)>) returns (reconciledCount: nat)
      requires e.Reconciliation? && e.program in store.accounts
      requires ListsOnce(existing, ByInvoice(existing))
      requires ByInvoice(existing).Keys <= store.accounts[e.program].rows.Keys
      modifies store`accounts
      ensures
        var account := old(store.accounts)[e.program];
        && store.accounts == old(store.accounts)[e.program := account.(
             rows := MarkAbsent(ByInvoice(existing), account.rows, Invoices(e.items), e.message))]
        && reconciledCount == |AbsentSet(ByInvoice(existing), Invoices(e.items))|
    {
      var snapshotInvoices := Invoices(e.items);
      ghost var before := ByInvoice(existing);
      ghost var start := store.accounts;
      ghost var rows := start[e.program].rows;
      ghost var marked: set<InvoiceId> := {};
      reconciledCount := 0;
      MarkedNone(start, e.program, e.message);
      for j := 0 to |existing|
        invariant marked == Missing(existing[..j], snapshotInvoices)
        invariant reconciledCount == |marked|
        invariant store.accounts == WithRows(start, e.program, Marked(rows, marked, e.message))
      {
        var (invoice, row) := existing[j];
        MissingStep(existing, snapshotInvoices, j);
        if row.status.Active? && invoice !in snapshotInvoices {
          MarkedMore(start, e.program, marked, invoice, e.message);
          store.MarkReservation(e.program, invoice, Reconciled, Some(e.message));
          reconciledCount := reconciledCount + 1;
          marked := marked + {invoice};
        }
      }
      assert existing[..|existing|] == existing;
      MissingIsAbsent(existing, snapshotInvoices);
      MarkedIsMarkAbsent(before, rows, snapshotInvoices, e.message);
    }
  }

  /** The rows of the list that the second loop marks. */
  function Missing(list: seq<(InvoiceId, Reservation)>, snapshot: set<InvoiceId>): set<InvoiceId> {
    if list == [] then {}
    else
      var (k, row) := list[|list| - 1];
      Missing(list[..|list| - 1], snapshot) + if row.status.Active? && k !in snapshot then {k} else {}
  }

  lemma {:induction false} MissingListed(list: seq<(InvoiceId, Reservation)>, snapshot: set<InvoiceId>, k: InvoiceId)
    ensures k in Missing(list, snapshot) <==>
              exists i | 0 <= i < |list| :: list[i].0 == k && list[i].1.status.Active? && k !in snapshot
  {
    if list != [] {
      var init := list[..|list| - 1];
      MissingListed(init, snapshot, k);
      assert forall i | 0 <= i < |init| :: init[i] == list[i];
    }
  }

  lemma MissingStep(list: seq<(InvoiceId, Reservation)>, snapshot: set<InvoiceId>, j: nat)
    requires j < |list|
    requires forall i, k | 0 <= i < k < |list| :: list[i].0 != list[k].0
    ensures list[j].0 !in Missing(list[..j], snapshot)
    ensures Missing(list[..j + 1], snapshot)
         == Missing(list[..j], snapshot) + if list[j].1.status.Active? && list[j].0 !in snapshot then {list[j].0} else {}
  {
    MissingListed(list[..j], snapshot, list[j].0);
    assert list[..j + 1][..j] == list[..j];
  }

  lemma MissingIsAbsent(list: seq<(InvoiceId, Reservation)>, snapshot: set<InvoiceId>)
    requires ListsOnce(list, ByInvoice(list))
    ensures Missing(list, snapshot) == AbsentSet(ByInvoice(list), snapshot)
  {
    var rows := ByInvoice(list);
    forall k
      ensures k in Missing(list, snapshot) <==> k in AbsentSet(rows, snapshot)
    {
      MissingListed(list, snapshot, k);
      if k in rows {
        assert k in Listed(list);
      }
    }
  }

  lemma MarkedIsMarkAbsent(before: Rows, rows: Rows, snapshot: set<InvoiceId>, message: MessageId)
    ensures Marked(rows, AbsentSet(before, snapshot), message) == MarkAbsent(before, rows, snapshot, message)
  {
  }

  function WithRows(accounts: map<ProgramId, Account>, p: ProgramId, rows: Rows): map<ProgramId, Account>
    requires p in accounts
  {
    accounts[p := accounts[p].(rows := rows)]
  }

  lemma MarkedNone(accounts: map<ProgramId, Account>, p: ProgramId, message: MessageId)
    requires p in accounts
    ensures accounts == WithRows(accounts, p, Marked(accounts[p].rows, {}, message))
  {
    assert Marked(accounts[p].rows, {}, message) == accounts[p].rows;
  }

  lemma MarkedMore(accounts: map<ProgramId, Account>, p: ProgramId, marked: set<InvoiceId>, k: InvoiceId, message: MessageId)
    requires p in accounts && k in accounts[p].rows && k !in marked
    ensures
      var rows := accounts[p].rows;
      var now := Marked(rows, marked, message);
      && now[k] == rows[k]
      && Marked(rows, marked + {k}, message) == now[k := ReconciledRow(rows[k], message)]
      && WithRows(WithRows(accounts, p, now), p, now[k := ReconciledRow(rows[k], message)])
         == WithRows(accounts, p, Marked(rows, marked + {k}, message))
  {
  }

  /** The rows with some of them marked RECONCILED. */
  function Marked(rows: Rows, marked: set<InvoiceId>, message: MessageId): Rows {
    map k | k in rows :: if k in marked then ReconciledRow(rows[k], message) else rows[k]
  }

  /** One turn of the first loop. */
  lemma WriteStep(c: Context, before: Rows, items: seq<Item>, i: nat)
    requires i < |items| && WriteItems(c, before, items[..i]).Some?
    ensures
      var k := items[i].invoice;
      var rows := WriteItem(c, before, WriteItems(c, before, items[..i]).value, items[i]);
      && WriteItems(c, before, items[..i + 1]) == rows
      && (rows.None? ==> WriteItems(c, before, items).None?)
      && InsertedCount(before, items[..i + 1]) == InsertedCount(before, items[..i]) + (if k !in before then 1 else 0)
      && ConflictCount(before, items[..i + 1])
         == ConflictCount(before, items[..i]) + (if HitsReleased(before, k) then 1 else 0)
      && UpdatedCount(before, items[..i + 1])
         == UpdatedCount(before, items[..i]) + (if k in before && !HitsReleased(before, k) then 1 else 0)
  {
    assert items[..i + 1][..i] == items[..i];
    WriteItemsFails(c, before, items, i + 1);
  }

  /** A loop that fails at an item fails. */
  lemma {:induction false} WriteItemsFails(c: Context, before: Rows, items: seq<Item>, i: nat)
    requires i <= |items|
    ensures WriteItems(c, before, items[..i]).None? ==> WriteItems(c, before, items).None?
    decreases |items|
  {
    if i == |items| {
      assert items[..i] == items;
    } else {
      var init := items[..|items| - 1];
      assert init[..i] == items[..i];
      WriteItemsFails(c, before, init, i);
    }
  }
}
