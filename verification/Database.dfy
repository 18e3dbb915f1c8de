/**
  The repositories as statements on a mutable database: src/programs/program.repository.ts,
  src/reservations/reservation.repository.ts, src/audit/ledger.repository.ts,
  src/treasury/reconciliation.repository.ts and src/treasury/processed-kafka-message.repository.ts.

  A statement that violates a constraint fails. The transaction it is part of is then
  rolled back by its caller, see Rollback.
 */
module Database {
  import opened Wrappers
  import opened Tables
  import opened Messages
  import opened Programs
  import opened Transactions

  /** The rows of a result set as a Map from invoice to row; a later row replaces an earlier one. */
  function ByInvoice(list: seq<(InvoiceId, Reservation)>): Rows {
    if list == [] then map[] else ByInvoice(list[..|list| - 1])[list[|list| - 1].0 := list[|list| - 1].1]
  }

  function Listed(list: seq<(InvoiceId, Reservation)>): set<InvoiceId> {
    set i | 0 <= i < |list| :: list[i].0
  }

  lemma ListedAppend(list: seq<(InvoiceId, Reservation)>, row: (InvoiceId, Reservation))
    ensures Listed(list + [row]) == Listed(list) + {row.0}
    ensures ByInvoice(list + [row]) == ByInvoice(list)[row.0 := row.1]
  {
    var more := list + [row];
    assert more[..|list|] == list;
    assert more[|list|] == row;
    forall k | k in Listed(list)
      ensures k in Listed(more)
    {
      var i :| 0 <= i < |list| && list[i].0 == k;
      assert more[i].0 == k;
    }
  }

  /** The list holds every row once. */
  predicate ListsOnce(list: seq<(InvoiceId, Reservation)>, rows: Rows) {
    && ByInvoice(list) == rows
    && Listed(list) == rows.Keys
    && (forall i, j | 0 <= i < j < |list| :: list[i].0 != list[j].0)
    && (forall i | 0 <= i < |list| :: list[i].0 in rows && rows[list[i].0] == list[i].1)
  }

  class Store {
    var accounts: map<ProgramId, Account>
    var runs: map<MessageId, Run>
    var processed: set<Processed>

    function State(): Db
      reads this
    {
      Db(accounts, runs, processed)
    }

    constructor (db: Db)
      ensures State() == db
    {
      accounts, runs, processed := db.accounts, db.runs, db.processed;
    }

    /** ROLLBACK */
    method Rollback(begun: Db)
      modifies this
      ensures State() == begun
    {
      accounts, runs, processed := begun.accounts, begun.runs, begun.processed;
    }

    // ---------- programs ----------

    /** findByIdForUpdate and findByExternalRefForUpdate */
    method FindProgram(p: ProgramId) returns (r: Option<Program>)
      ensures r == if p in accounts then Some(accounts[p].program) else None
    {
      r := if p in accounts then Some(accounts[p].program) else None;
    }

    method PutProgram(p: ProgramId, program: Program) returns (r: Result<Program, ApiError>)
      requires p in accounts
      modifies this`accounts
      ensures r == if ProgramChecks(program) then Success(program) else Failure(ConstraintViolation)
      ensures accounts == if r.Success? then old(accounts)[p := old(accounts)[p].(program := program)] else old(accounts)
    {
      if !ProgramChecks(program) {
        return Failure(ConstraintViolation);
      }
      accounts := accounts[p := accounts[p].(program := program)];
      r := Success(program);
    }

    method ReserveCapacity(p: ProgramId, amount: int) returns (r: Result<Option<Program>, ApiError>)
      requires p in accounts
      modifies this`accounts
      ensures
        var updated := Reserve(old(accounts)[p].program, amount);
        && r == (if !FitsBigint(amount) || (updated.Some? && !ProgramChecks(updated.value)) then Failure(ConstraintViolation)
                 else Success(updated))
        && accounts == if r.Success? && updated.Some? then old(accounts)[p := old(accounts)[p].(program := updated.value)]
                       else old(accounts)
    {
      if !FitsBigint(amount) {
        return Failure(ConstraintViolation);
      }
      var updated := Reserve(accounts[p].program, amount);
      if updated.None? {
        return Success(None);
      }
      var stored :- PutProgram(p, updated.value);
      r := Success(Some(stored));
    }

    method ReleaseCapacity(p: ProgramId, amount: int) returns (r: Result<Program, ApiError>)
      requires p in accounts
      modifies this`accounts
      ensures
        var updated := GiveBack(old(accounts)[p].program, amount);
        && r == (if ProgramChecks(updated) then Success(updated) else Failure(ConstraintViolation))
        && accounts == if r.Success? then old(accounts)[p := old(accounts)[p].(program := updated)] else old(accounts)
    {
      r := PutProgram(p, GiveBack(accounts[p].program, amount));
    }

    /** createFromTreasury: the unique index on external_ref refuses a second row. */
    method CreateFromTreasury(p: ProgramId, currency: Currency, exponent: int, limit: int, treasuryVersion: int)
        returns (r: Result<Program, ApiError>)
      modifies this`accounts
      ensures
        var created := NewProgram(currency, exponent, limit, treasuryVersion);
        && r == (if p !in old(accounts) && ProgramChecks(created) then Success(created) else Failure(ConstraintViolation))
        && accounts == if r.Success? then old(accounts)[p := Account(created, map[], [])] else old(accounts)
    {
      var created := NewProgram(currency, exponent, limit, treasuryVersion);
      if p in accounts || !ProgramChecks(created) {
        return Failure(ConstraintViolation);
      }
      accounts := accounts[p := Account(created, map[], [])];
      r := Success(created);
    }

    method ApplyCapacityUpdate(p: ProgramId, currency: Currency, exponent: int, limit: int, treasuryVersion: int)
        returns (r: Result<Program, ApiError>)
      requires p in accounts
      modifies this`accounts
      ensures
        var updated := WithLimit(old(accounts)[p].program, currency, exponent, limit, treasuryVersion);
        && r == (if ProgramChecks(updated) then Success(updated) else Failure(ConstraintViolation))
        && accounts == if r.Success? then old(accounts)[p := old(accounts)[p].(program := updated)] else old(accounts)
    {
      r := PutProgram(p, WithLimit(accounts[p].program, currency, exponent, limit, treasuryVersion));
    }

    method ApplyReconciliation(p: ProgramId, currency: Currency, exponent: int, limit: int, reserved: int,
        treasuryVersion: int) returns (r: Result<Program, ApiError>)
      requires p in accounts
      modifies this`accounts
      ensures
        var updated := WithSnapshot(old(accounts)[p].program, currency, exponent, limit, reserved, treasuryVersion);
        && r == (if ProgramChecks(updated) then Success(updated) else Failure(ConstraintViolation))
        && accounts == if r.Success? then old(accounts)[p := old(accounts)[p].(program := updated)] else old(accounts)
    {
      r := PutProgram(p, WithSnapshot(accounts[p].program, currency, exponent, limit, reserved, treasuryVersion));
    }

    // ---------- reservations ----------

    /** findByProgramAndInvoice and findByIdForUpdate */
    method FindReservation(p: ProgramId, k: InvoiceId) returns (r: Option<Reservation>)
      ensures r == if p in accounts && k in accounts[p].rows then Some(accounts[p].rows[k]) else None
    {
      r := if p in accounts && k in accounts[p].rows then Some(accounts[p].rows[k]) else None;
    }

    /** findAllForProgramForUpdate: every row of the program once, in no particular order. */
    method FindAllReservations(p: ProgramId) returns (list: seq<(InvoiceId, Reservation)>)
      requires p in accounts
      ensures ListsOnce(list, accounts[p].rows)
    {
      var rows := accounts[p].rows;
      var rest := rows.Keys;
      list := [];
      while rest != {}
        invariant rest <= rows.Keys
        invariant ListsOnce(list, map k | k in rows && k !in rest :: rows[k])
        decreases rest
      {
        var k :| k in rest;
        ListedAppend(list, (k, rows[k]));
        list := list + [(k, rows[k])];
        rest := rest - {k};
      }
      assert rows == map k | k in rows && k !in rest :: rows[k];
    }

    /** insert: the unique index on (program_id, invoice_id) refuses a second row. */
    method InsertReservation(p: ProgramId, k: InvoiceId, row: Reservation) returns (r: Result<(), ApiError>)
      requires p in accounts
      modifies this`accounts
      ensures r == if k !in old(accounts)[p].rows && ReservationChecks(row) then Success(()) else Failure(ConstraintViolation)
      ensures accounts == if r.Success?
                          then old(accounts)[p := old(accounts)[p].(rows := old(accounts)[p].rows[k := row])]
                          else old(accounts)
    {
      if k in accounts[p].rows || !ReservationChecks(row) {
        return Failure(ConstraintViolation);
      }
      accounts := accounts[p := accounts[p].(rows := accounts[p].rows[k := row])];
      r := Success(());
    }

    /** markReleased and markReconciled leave the columns under a CHECK constraint as they are. */
    method MarkReservation(p: ProgramId, k: InvoiceId, status: ReservationStatus, message: Option<MessageId>)
      requires p in accounts && k in accounts[p].rows
      modifies this`accounts
      ensures
        var row := old(accounts)[p].rows[k];
        var marked := row.(status := status, reconciliation := if message.Some? then message else row.reconciliation);
        accounts == old(accounts)[p := old(accounts)[p].(rows := old(accounts)[p].rows[k := marked])]
    {
      var row := accounts[p].rows[k];
      var marked := row.(status := status, reconciliation := if message.Some? then message else row.reconciliation);
      accounts := accounts[p := accounts[p].(rows := accounts[p].rows[k := marked])];
    }

    /** updateFromReconciliation */
    method UpdateReservation(p: ProgramId, k: InvoiceId, row: Reservation) returns (r: Result<(), ApiError>)
      requires p in accounts && k in accounts[p].rows
      modifies this`accounts
      ensures r == if ReservationChecks(row) then Success(()) else Failure(ConstraintViolation)
      ensures accounts == if r.Success?
                          then old(accounts)[p := old(accounts)[p].(rows := old(accounts)[p].rows[k := row])]
                          else old(accounts)
    {
      if !ReservationChecks(row) {
        return Failure(ConstraintViolation);
      }
      accounts := accounts[p := accounts[p].(rows := accounts[p].rows[k := row])];
      r := Success(());
    }

    // ---------- capacity_ledger ----------

    method AppendLedger(p: ProgramId, entry: LedgerEntry)
      requires p in accounts
      modifies this`accounts
      ensures accounts == old(accounts)[p := old(accounts)[p].(ledger := old(accounts)[p].ledger + [entry])]
    {
      accounts := accounts[p := accounts[p].(ledger := accounts[p].ledger + [entry])];
    }

    // ---------- reconciliation_runs and processed_kafka_messages ----------

    method InsertRun(message: MessageId, run: Run) returns (r: Result<(), ApiError>)
      modifies this`runs
      ensures r == if RunChecks(run) then Success(()) else Failure(ConstraintViolation)
      ensures runs == if r.Success? then AddRun(old(runs), message, Some(run)) else old(runs)
    {
      if !RunChecks(run) {
        return Failure(ConstraintViolation);
      }
      if message !in runs {
        runs := runs[message := run];
      }
      r := Success(());
    }

    /** ON CONFLICT covers the offset only; a recorded message id is a violation. */
    method MarkProcessed(d: Delivery) returns (r: Result<(), ApiError>)
      modifies this`processed
      ensures r.Success? <==>
                SlotRecorded(old(processed), d.slot) || !MessageRecorded(old(processed), d.event.message)
      ensures processed == if r.Success? && !SlotRecorded(old(processed), d.slot)
                           then old(processed) + {Recorded(d)} else old(processed)
    {
      if SlotRecorded(processed, d.slot) {
        return Success(());
      }
      if MessageRecorded(processed, d.event.message) {
        return Failure(ConstraintViolation);
      }
      processed := processed + {Recorded(d)};
      r := Success(());
    }
  }
}
