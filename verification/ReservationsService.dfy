/** src/reservations/reservations.service.ts, statement by statement. */
module ReservationsService {
  import opened Wrappers
  import opened Tables
  import opened Messages
  import opened Money
  import opened MoneyLaws
  import opened Programs
  import opened Transactions
  import opened Database

  class Service {
    const store: Store

    constructor (store: Store)
      ensures this.store == store
    {
      this.store := store;
    }

    /** create: runReservationTransaction within TransactionManager.run. */
    method Create(req: CreateRequest, found: Lookups) returns (r: Result<int, ApiError>)
      modifies store
      ensures store.State() == After(old(store.State()), CreateOp(req, found))
      ensures
        match Transactions.Create(old(store.State()), req, found)
        case Done(_, available) => r == Success(available)
        case Failed(error) => r == Failure(error)
    {
      var begun := store.State();
      r := RunReservation(req, found);
      if r.Failure? {
        store.Rollback(begun);
      }
    }

    method RunReservation(req: CreateRequest, found: Lookups) returns (r: Result<int, ApiError>)
      modifies store
      ensures
        match Transactions.Create(old(store.State()), req, found)
        case Done(account, available) =>
          && r == Success(available)
          && store.State() == old(store.State()).(accounts := old(store.accounts)[req.program := account])
        case Failed(error) => r == Failure(error)
    {
      var locked := store.FindProgram(req.program);
      if locked.None? {
        return Failure(ProgramNotFound);
      }
      var program := locked.value;
      if program.status != ProgramActive {
        return Failure(if program.status == ProgramOverLimit then ProgramIsOverLimit else ProgramNotActive);
      }
      var existing := store.FindReservation(req.program, req.invoice);
      if existing.Some? {
        return Failure(if existing.value.status.Active? then InvoiceAlreadyReserved else InvoiceAlreadyProcessed);
      }
      if found.exponent.None? {
        return Failure(UnsupportedCurrency);
      }
      var reserved: int;
      var rate: nat;
      var source: RateSource;
      if req.currency == program.currency {
        reserved, rate, source := req.amount, ONE, Identity;
      } else {
        if found.quote.None? {
          return Failure(FxRateNotFound);
        }
        rate, source := found.quote.value.rate, FxTable(found.quote.value.name);
        reserved := Convert(Positive(req.amount), found.exponent.value, program.exponent, rate);
      }
      var updated :- store.ReserveCapacity(req.program, reserved);
      if updated.None? {
        r := HandleReservationConflict(req.program, reserved);
        return;
      }
      var _ :- store.InsertReservation(
        req.program, req.invoice,
        Reservation(req.currency, found.exponent.value, req.amount, program.currency, program.exponent,
                    reserved, rate, source, ReservationStatus.Active, Api, None));
      store.AppendLedger(req.program, LedgerEntry(ReservationCreated(req.invoice), reserved, program.currency));
      var available := Available(updated.value);
      if !SafeNumber(req.amount) || !SafeNumber(reserved) || !SafeNumber(available) {
        return Failure(UnsafeNumber);
      }
      r := Success(available);
    }

    method HandleReservationConflict(p: ProgramId, requested: int) returns (r: Result<int, ApiError>)
      requires p in store.accounts
      ensures r == Failure(ConflictError(store.accounts[p].program, requested))
      ensures
        var current := store.accounts[p].program;
        current.status == StatusFor(current.reserved, current.limit) && Reserve(current, requested).None? ==>
          && r != Failure(ProgramNotActive)
          && (r == Failure(ProgramIsOverLimit) <==> current.reserved > current.limit)
          && (r in {Failure(InsufficientCapacity), Failure(UnsafeNumber)} ==>
                current.limit - current.reserved < requested)
    {
      var read := store.FindProgram(p);
      var current := read.value;
      if current.status != ProgramActive {
        return Failure(if current.status == ProgramOverLimit then ProgramIsOverLimit else ProgramNotActive);
      }
      if !SafeNumber(Available(current)) || !SafeNumber(requested) {
        return Failure(UnsafeNumber);
      }
      r := Failure(InsufficientCapacity);
    }

    /** release: runReleaseTransaction within TransactionManager.run. */
    method Release(p: ProgramId, k: InvoiceId) returns (r: Result<int, ApiError>)
      modifies store
      ensures store.State() == After(old(store.State()), ReleaseOp(p, k))
      ensures
        match Transactions.Release(old(store.State()), p, k)
        case Done(_, available) => r == Success(available)
        case Failed(error) => r == Failure(error)
    {
      var begun := store.State();
      r := RunRelease(p, k);
      if r.Failure? {
        store.Rollback(begun);
      }
    }

    method RunRelease(p: ProgramId, k: InvoiceId) returns (r: Result<int, ApiError>)
      modifies store
      ensures
        match Transactions.Release(old(store.State()), p, k)
        case Done(account, available) =>
          && r == Success(available)
          && store.State() == old(store.State()).(accounts := old(store.accounts)[p := account])
        case Failed(error) => r == Failure(error)
    {
      var locked := store.FindReservation(p, k);
      if locked.None? {
        return Failure(ReservationNotFound);
      }
      var reservation := locked.value;
      if reservation.status.Released? {
        var read := store.FindProgram(p);
        var available := Available(read.value);
        if !SafeNumber(reservation.reserved) || !SafeNumber(available) {
          return Failure(UnsafeNumber);
        }
        return Success(available);
      }
      if reservation.status.Reconciled? {
        return Failure(ReconciliationConflict);
      }
      var _ := store.FindProgram(p);
      var updated :- store.ReleaseCapacity(p, reservation.reserved);
      store.MarkReservation(p, k, ReservationStatus.Released, None);
      store.AppendLedger(p, LedgerEntry(ReservationReleased(k), -reservation.reserved, reservation.programCurrency));
      var available := Available(updated);
      if !SafeNumber(reservation.reserved) || !SafeNumber(available) {
        return Failure(UnsafeNumber);
      }
      r := Success(available);
    }
  }
}
