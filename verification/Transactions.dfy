/**
  The four transactions, run alone: what each commits from the state it starts in.

  A transaction either commits a new state or aborts and changes nothing. Whatever the
  source throws inside a transaction (an AppError, a RangeError, a violated constraint)
  is an abort.
 */
module Transactions {
  import opened Wrappers
  import opened Tables
  import opened Messages
  import opened Money
  import opened MoneyLaws
  import opened Programs
  import opened Snapshot

  datatype ApiError =
    | ProgramNotFound | ProgramNotActive | ProgramIsOverLimit
    | InvoiceAlreadyReserved | InvoiceAlreadyProcessed
    | UnsupportedCurrency | FxRateNotFound
    | InsufficientCapacity
    | ReservationNotFound | ReconciliationConflict
    | ConstraintViolation | UnsafeNumber

  datatype HandlerStatus = Applied | Duplicate | Stale | Ignored

  /** What a transaction does to one program. */
  datatype ApiResult = Done(account: Account, available: int) | Failed(error: ApiError)

  /** bigIntToSafeNumber on every amount of a response; otherwise RangeError. */
  predicate SafeResponse(amount: int, reserved: int, available: int) {
    SafeNumber(amount) && SafeNumber(reserved) && SafeNumber(available)
  }

  // ---------- create, src/reservations/reservations.service.ts:49-212 ----------

  datatype Price = Price(exponent: int, reserved: int, rate: nat, source: RateSource)
                 | NoPrice(error: ApiError)

  /** The amount to reserve, in the program's currency. */
  function PriceOf(p: Program, req: CreateRequest, found: Lookups): Price {
    if found.exponent.None? then NoPrice(UnsupportedCurrency)
    else if req.currency == p.currency then Price(found.exponent.value, req.amount, ONE, Identity)
    else if found.quote.None? then NoPrice(FxRateNotFound)
    else
      var quote := found.quote.value;
      Price(found.exponent.value,
            Convert(Positive(req.amount), found.exponent.value, p.exponent, quote.rate),
            quote.rate, FxTable(quote.name))
  }

  function NotActiveError(p: Program): ApiError {
    if p.status.ProgramOverLimit? then ProgramIsOverLimit else ProgramNotActive
  }

  /** handleReservationConflict: reads the program again and reports why the guard failed. */
  function ConflictError(p: Program, requested: int): ApiError {
    if p.status != ProgramActive then NotActiveError(p)
    else if !SafeNumber(Available(p)) || !SafeNumber(requested) then UnsafeNumber
    else InsufficientCapacity
  }

  function CreatedRow(p: Program, req: CreateRequest, price: Price): Reservation
    requires price.Price?
  {
    Reservation(req.currency, price.exponent, req.amount, p.currency, p.exponent, price.reserved,
                price.rate, price.source, ReservationStatus.Active, Api, None)
  }

  function CreateOn(a: Account, req: CreateRequest, found: Lookups): ApiResult {
    var p := a.program;
    if p.status != ProgramActive then Failed(NotActiveError(p))
    else if req.invoice in a.rows then
      Failed(if a.rows[req.invoice].status.Active? then InvoiceAlreadyReserved else InvoiceAlreadyProcessed)
    else
      var price := PriceOf(p, req, found);
      if price.NoPrice? then Failed(price.error)
      else if !FitsBigint(price.reserved) then Failed(ConstraintViolation)
      else
        var updated := Reserve(p, price.reserved);
        if updated.None? then Failed(ConflictError(p, price.reserved))
        else
          var row := CreatedRow(p, req, price);
          var q := updated.value;
          if !ProgramChecks(q) || !ReservationChecks(row) then Failed(ConstraintViolation)
          else if !SafeResponse(req.amount, price.reserved, Available(q)) then Failed(UnsafeNumber)
          else
            var entry := LedgerEntry(ReservationCreated(req.invoice), price.reserved, p.currency);
            Done(Account(q, a.rows[req.invoice := row], a.ledger + [entry]), Available(q))
  }

  // ---------- release, src/reservations/reservations.service.ts:255-321 ----------

  function ReleasedRow(row: Reservation): Reservation {
    row.(status := ReservationStatus.Released)
  }

  function ReleaseOn(a: Account, invoice: InvoiceId): ApiResult {
    if invoice !in a.rows then Failed(ReservationNotFound)
    else
      var row := a.rows[invoice];
      if row.status.Released? then
        if !SafeResponse(row.reserved, row.reserved, Available(a.program)) then Failed(UnsafeNumber)
        else Done(a, Available(a.program))
      else if row.status.Reconciled? then Failed(ReconciliationConflict)
      else
        var q := GiveBack(a.program, row.reserved);
        if !ProgramChecks(q) then Failed(ConstraintViolation)
        else if !SafeResponse(row.reserved, row.reserved, Available(q)) then Failed(UnsafeNumber)
        else
          var entry := LedgerEntry(ReservationReleased(invoice), -row.reserved, row.programCurrency);
          Done(Account(q, a.rows[invoice := ReleasedRow(row)], a.ledger + [entry]), Available(q))
  }

  // ---------- the treasury handlers ----------

  /** What handling a message does to its program, and the run it records. */
  datatype Work = Work(account: Account, status: HandlerStatus, run: Option<Run>) | Rejected

  /** src/treasury/treasury-capacity-update.handler.ts:69-151, after the two dedup reads. */
  function CapacityWork(found: Option<Account>, e: Event): Work
    requires e.CapacityUpdate?
  {
    if e.version.Fraction? then Rejected
    else
      match found
      case None =>
        if e.limit.Fraction? then Rejected
        else
          var p := NewProgram(e.currency, e.exponent, e.limit.n, e.version.n);
          if !ProgramChecks(p) then Rejected
          else Work(Account(p, map[], [LedgerEntry(ProgramCreated, e.limit.n, e.currency)]), Applied, None)
      case Some(a) =>
        if Programs.Stale(a.program, e.version.n) then Work(a, Stale, None)
        else if e.limit.Fraction? then Rejected
        else
          var p := WithLimit(a.program, e.currency, e.exponent, e.limit.n, e.version.n);
          var difference := e.limit.n - a.program.limit;
          var entries :=
            if difference == 0 then []
            else [LedgerEntry(TreasuryUpdateApplied(e.message), difference, e.currency)];
          if !ProgramChecks(p) then Rejected
          else Work(a.(program := p, ledger := a.ledger + entries), Applied, None)
  }

  /** currencyMismatch compares items with the currency of the payload. */
  predicate MixedCurrencies(e: Event)
    requires e.Reconciliation?
  {
    exists i | 0 <= i < |e.items| :: e.items[i].currency != e.currency
  }

  predicate SumDiffers(e: Event)
    requires e.Reconciliation?
  {
    e.declared.Whole? && Total(e.items) != e.declared.n
  }

  /** The message contradicts itself; it is recorded and not applied. */
  predicate Contradictory(e: Event) {
    e.Reconciliation? && (MixedCurrencies(e) || SumDiffers(e))
  }

  /** A run that changes nothing. */
  function SkippedRun(e: Event, p: Program, status: RunStatus): Run
    requires e.Reconciliation? && e.limit.Whole? && e.declared.Whole?
  {
    Run(e.program, e.limit.n, e.declared.n, p.limit, p.reserved, 0, 0, status)
  }

  function WorkWithRun(a: Account, status: HandlerStatus, run: Run): Work {
    if RunChecks(run) then Work(a, status, Some(run)) else Rejected
  }

  /** Lines 174-310: the snapshot is applied. */
  function ApplySnapshot(a: Account, e: Event): Work
    requires e.Reconciliation? && e.version.Whole? && e.limit.Whole?
  {
    var c := Context(a.program.currency, a.program.exponent, e.message);
    var snapshot := Invoices(e.items);
    var written := WriteItems(c, a.rows, e.items);
    if written.None? then Rejected
    else
      var total := Total(e.items);
      var limitDifference := e.limit.n - a.program.limit;
      var reservedDifference := total - a.program.reserved;
      var counts := AppliedRun(|e.items|, InsertedCount(a.rows, e.items), UpdatedCount(a.rows, e.items),
                              |AbsentSet(a.rows, snapshot)|, ConflictCount(a.rows, e.items));
      var run := Run(e.program, e.limit.n, total, a.program.limit, a.program.reserved,
                     limitDifference, reservedDifference, counts);
      var entries :=
        if reservedDifference == 0 && limitDifference == 0 then []
        else [LedgerEntry(TreasuryReconciliationApplied(e.message, limitDifference), reservedDifference, e.currency)];
      var p := WithSnapshot(a.program, e.currency, e.exponent, e.limit.n, total, e.version.n);
      if !ProgramChecks(p) then Rejected
      else
        WorkWithRun(Account(p, MarkAbsent(a.rows, written.value, snapshot, e.message), a.ledger + entries),
                    Applied, run)
  }

  /** The program a message for an unknown program creates. */
  function CreatedAccount(e: Event): Account
    requires e.version.Whole? && e.limit.Whole?
  {
    Account(NewProgram(e.currency, e.exponent, e.limit.n, e.version.n), map[], [])
  }

  /** src/treasury/treasury-reconciliation.handler.ts:64-310, after the two dedup reads. */
  function ReconciliationWork(found: Option<Account>, e: Event): Work
    requires e.Reconciliation?
  {
    if e.version.Fraction? || e.limit.Fraction? || e.declared.Fraction? then Rejected
    else
      var a := if found.Some? then found.value else CreatedAccount(e);
      if found.None? && !ProgramChecks(a.program) then Rejected
      else if found.Some? && Programs.Stale(a.program, e.version.n) then
        WorkWithRun(a, Stale, SkippedRun(e, a.program, StaleSkipped))
      else if !AllWhole(e.items) then Rejected
      else if Contradictory(e) then
        WorkWithRun(a, Ignored,
                    SkippedRun(e, a.program, ConflictRun(if MixedCurrencies(e) then CurrencyMismatch else SumMismatch)))
      else ApplySnapshot(a, e)
  }

  function WorkFor(found: Option<Account>, e: Event): Work {
    if e.CapacityUpdate? then CapacityWork(found, e) else ReconciliationWork(found, e)
  }

  // ---------- on the database ----------

  datatype Outcome = Committed(db: Db, status: HandlerStatus) | Aborted

  /** INSERT INTO reconciliation_runs ... ON CONFLICT (external_message_id) DO NOTHING */
  function AddRun(runs: map<MessageId, Run>, message: MessageId, run: Option<Run>): map<MessageId, Run> {
    if run.None? || message in runs then runs else runs[message := run.value]
  }

  function Handle(db: Db, d: Delivery): Outcome {
    var e := d.event;
    if SlotRecorded(db.processed, d.slot) then Committed(db, Duplicate)
    else if MessageRecorded(db.processed, e.message) then
      Committed(db, if RecordedDifferently(db.processed, e.message, d.hash) then Ignored else Duplicate)
    else
      match WorkFor(Lookup(db.accounts, e.program), e)
      case Rejected => Aborted
      case Work(account, status, run) =>
        Committed(Db(db.accounts[e.program := account], AddRun(db.runs, e.message, run),
                     db.processed + {Recorded(d)}),
                  status)
  }

  function Create(db: Db, req: CreateRequest, found: Lookups): ApiResult {
    if req.program in db.accounts then CreateOn(db.accounts[req.program], req, found)
    else Failed(ProgramNotFound)
  }

  function Release(db: Db, program: ProgramId, invoice: InvoiceId): ApiResult {
    if program in db.accounts then ReleaseOn(db.accounts[program], invoice)
    else Failed(ReservationNotFound)
  }

  /** One transaction. */
  datatype Op =
    | CreateOp(req: CreateRequest, found: Lookups)
    | ReleaseOp(program: ProgramId, invoice: InvoiceId)
    | Deliver(delivery: Delivery)

  function OpProgram(op: Op): ProgramId {
    match op
    case CreateOp(req, _) => req.program
    case ReleaseOp(program, _) => program
    case Deliver(d) => d.event.program
  }

  function WithAccount(db: Db, p: ProgramId, result: ApiResult): Outcome {
    match result
    case Done(account, _) => Committed(db.(accounts := db.accounts[p := account]), Applied)
    case Failed(_) => Aborted
  }

  /** The transaction run alone. */
  function Atomic(db: Db, op: Op): Outcome {
    match op
    case CreateOp(req, found) => WithAccount(db, req.program, Create(db, req, found))
    case ReleaseOp(program, invoice) => WithAccount(db, program, Release(db, program, invoice))
    case Deliver(d) => Handle(db, d)
  }

  /** The state after the transaction. */
  function After(db: Db, op: Op): Db {
    match Atomic(db, op)
    case Committed(next, _) => next
    case Aborted => db
  }

  /** The state after a run of transactions, one after another. */
  function Exec(db: Db, ops: seq<Op>): Db {
    if ops == [] then db else After(Exec(db, ops[..|ops| - 1]), ops[|ops| - 1])
  }
}
