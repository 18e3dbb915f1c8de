/**
  Transactions cut into the statements at which they read, lock and write.

  PostgreSQL runs them at READ COMMITTED: a statement reads the rows committed before it.
  A row lock taken by SELECT ... FOR UPDATE or by a write, and the key of a row inserted
  into a unique index, are held until the transaction ends; whoever needs one waits. Writes
  are visible to others from the commit on. A transaction may abort at any moment: on an
  error of its own, as the victim of a deadlock, or because the process dies.
 */
module Interleaving {
  import opened Wrappers
  import opened Tables
  import opened Messages
  import opened Programs
  import opened Snapshot
  import opened Transactions

  type TxId = nat

  datatype Resource =
    | ProgramLock(p: ProgramId)                  // the programs row
    | RowLock(of: ProgramId, k: InvoiceId)       // an invoice_reservations row
    | RefKey(inserted: ProgramId)                // programs_external_ref_key
    | RunKey(run: MessageId)                     // reconciliation_runs_external_message_id_key
    | SlotKey(slot: Slot)                        // processed_kafka_messages, both unique indexes
    | MessageKey(message: MessageId)

  // ---------- pending writes ----------

  /** An UPDATE of the programs row; it computes from the row as it is. */
  datatype Statement =
    | NoStatement
    | ReserveCapacity(amount: int)
    | ReleaseCapacity(amount: int)
    | ApplyCapacityUpdate(currency: Currency, exponent: int, limit: int, version: int)
    | ApplyReconciliation(currency: Currency, exponent: int, limit: int, reserved: int, version: int)

  datatype RowWrites = NoRow | OneRow(k: InvoiceId, row: Reservation) | AllRows(rows: Rows)

  /** What a transaction writes to one program: to an existing one, or to one it inserts. */
  datatype Writes =
    | Changes(statement: Statement, rows: RowWrites, entries: seq<LedgerEntry>)
    | NewProgramRows(account: Account)

  function Execute(p: Program, s: Statement): Program {
    match s
    case NoStatement => p
    case ReserveCapacity(amount) => p.(reserved := p.reserved + amount, version := p.version + 1)
    case ReleaseCapacity(amount) => GiveBack(p, amount)
    case ApplyCapacityUpdate(currency, exponent, limit, version) => WithLimit(p, currency, exponent, limit, version)
    case ApplyReconciliation(currency, exponent, limit, reserved, version) =>
      WithSnapshot(p, currency, exponent, limit, reserved, version)
  }

  function WithRows(rows: Rows, w: RowWrites): Rows {
    match w
    case NoRow => rows
    case OneRow(k, row) => rows[k := row]
    case AllRows(written) => rows + written
  }

  function Changed(a: Account, w: Writes): Account
    requires w.Changes?
  {
    Account(Execute(a.program, w.statement), WithRows(a.rows, w.rows), a.ledger + w.entries)
  }

  // ---------- a transaction under way ----------

  datatype Phase =
    | Begun
    | SlotUnseen                                    // no message with this offset was found
    | Unseen                                        // nor one with this message id
    | NoProgram                                     // FOR UPDATE found no program
    | Holding(program: Program, created: bool)      // the program row is locked and read, or inserted
    | InvoiceFree(program: Program)                 // create: the invoice has no reservation
    | GuardFailed(requested: int)                   // create: the guarded UPDATE matched no row
    | RowHeld(row: Reservation)                     // release: the reservation is locked and read
    | BothHeld(row: Reservation)                    // release: and the program is locked
    | SnapshotHeld(program: Program, created: bool, rows: Rows)  // reconciliation: all rows locked and read
    | Written(created: bool, locked: set<InvoiceId>, writes: Writes, run: Option<Run>)
    | RunStored(created: bool, locked: set<InvoiceId>, writes: Writes, run: Option<Run>, addRun: bool)
    | Marked(created: bool, locked: set<InvoiceId>, writes: Writes, run: Option<Run>, addRun: bool, mark: bool)
    | Nothing(locked: set<InvoiceId>)               // about to commit without a write

  datatype Tx = Tx(op: Op, phase: Phase)

  predicate HasProgram(phase: Phase) {
    phase.Holding? || phase.InvoiceFree? || phase.GuardFailed? || phase.BothHeld? || phase.SnapshotHeld?
    || phase.Written? || phase.RunStored? || phase.Marked?
  }

  predicate Inserted(phase: Phase) {
    (phase.Holding? || phase.SnapshotHeld? || phase.Written? || phase.RunStored? || phase.Marked?) && phase.created
  }

  function LockedRows(tx: Tx): set<InvoiceId> {
    match tx.phase
    case RowHeld(_) => if tx.op.ReleaseOp? then {tx.op.invoice} else {}
    case BothHeld(_) => if tx.op.ReleaseOp? then {tx.op.invoice} else {}
    case SnapshotHeld(_, _, rows) => rows.Keys
    case Written(_, locked, _, _) => locked
    case RunStored(_, locked, _, _, _) => locked
    case Marked(_, locked, _, _, _, _) => locked
    case Nothing(locked) => locked
    case _ => {}
  }

  predicate StoresRun(tx: Tx, m: MessageId) {
    (tx.phase.RunStored? || tx.phase.Marked?) && tx.phase.addRun && tx.op.Deliver? && tx.op.delivery.event.message == m
  }

  predicate Marks(tx: Tx) {
    tx.phase.Marked? && tx.phase.mark && tx.op.Deliver?
  }

  /** The locks a transaction holds. */
  predicate Holds(tx: Tx, r: Resource) {
    match r
    case ProgramLock(p) => OpProgram(tx.op) == p && HasProgram(tx.phase) && !Inserted(tx.phase)
    case RefKey(p) => OpProgram(tx.op) == p && Inserted(tx.phase)
    case RowLock(p, k) => OpProgram(tx.op) == p && k in LockedRows(tx)
    case RunKey(m) => StoresRun(tx, m)
    case SlotKey(slot) => Marks(tx) && tx.op.delivery.slot == slot
    case MessageKey(m) => Marks(tx) && tx.op.delivery.event.message == m
  }

  /** `committed` lists the operations in the order in which they committed. */
  datatype Sys = Sys(db: Db, txs: map<TxId, Tx>, committed: seq<Op>)

  predicate Free(s: Sys, t: TxId, r: Resource) {
    forall u | u in s.txs && u != t :: !Holds(s.txs[u], r)
  }

  // ---------- what a transaction does next ----------

  datatype Action = Blocked | Aborts | Moves(phase: Phase) | Commits(db: Db)

  /** The statements of a create after its reads; `program` was read under the lock, `a` is current. */
  function CreateWrites(program: Program, a: Account, req: CreateRequest, found: Lookups): Option<Writes> {
    var price := PriceOf(program, req, found);
    if price.NoPrice? || !FitsBigint(price.reserved) || Reserve(a.program, price.reserved).None? then None
    else
      var q := Reserve(a.program, price.reserved).value;
      var row := CreatedRow(program, req, price);
      if !ProgramChecks(q) || req.invoice in a.rows || !ReservationChecks(row) then None
      else if !SafeResponse(req.amount, price.reserved, Available(q)) then None
      else Some(Changes(ReserveCapacity(price.reserved), OneRow(req.invoice, row),
                        [LedgerEntry(ReservationCreated(req.invoice), price.reserved, program.currency)]))
  }

  /** The statements of a release; `row` was read under its lock, `a` is current. */
  function ReleaseWrites(row: Reservation, a: Account, k: InvoiceId): Option<Writes> {
    var q := GiveBack(a.program, row.reserved);
    if !ProgramChecks(q) || !SafeResponse(row.reserved, row.reserved, Available(q)) then None
    else Some(Changes(ReleaseCapacity(row.reserved), OneRow(k, ReleasedRow(row)),
                      [LedgerEntry(ReservationReleased(k), -row.reserved, row.programCurrency)]))
  }

  /** What a handler works out from the program and rows it read. */
  function LocalWork(program: Program, created: bool, rows: Rows, e: Event): Work {
    WorkFor(if created then None else Some(Account(program, rows, [])), e)
  }

  function TreasuryWrites(created: bool, e: Event, work: Work): Writes
    requires work.Work?
  {
    if created then NewProgramRows(work.account)
    else if work.status != Applied || e.version.Fraction? || e.limit.Fraction? then Changes(NoStatement, NoRow, [])
    else if e.CapacityUpdate? then
      Changes(ApplyCapacityUpdate(e.currency, e.exponent, e.limit.n, e.version.n), NoRow, work.account.ledger)
    else
      Changes(ApplyReconciliation(e.currency, e.exponent, e.limit.n, Total(e.items), e.version.n),
              AllRows(work.account.rows), work.account.ledger)
  }

  /** The reconciliation goes on to read and lock the reservations. */
  predicate NeedsRows(program: Program, created: bool, e: Event) {
    && e.Reconciliation? && e.version.Whole? && AllWhole(e.items) && !Contradictory(e)
    && (created || !Programs.Stale(program, e.version.n))
  }

  function AfterWork(created: bool, locked: set<InvoiceId>, e: Event, work: Work): Action {
    if work.Rejected? then Aborts else Moves(Written(created, locked, TreasuryWrites(created, e, work), work.run))
  }

  function NextCreate(s: Sys, t: TxId): Action
    requires t in s.txs && s.txs[t].op.CreateOp?
  {
    var CreateOp(req, found) := s.txs[t].op;
    if req.program !in s.db.accounts then Aborts
    else
      var a := s.db.accounts[req.program];
      match s.txs[t].phase
      case Begun => if !Free(s, t, ProgramLock(req.program)) then Blocked else Moves(Holding(a.program, false))
      case Holding(program, _) =>
        if program.status != ProgramActive || req.invoice in a.rows then Aborts else Moves(InvoiceFree(program))
      case InvoiceFree(program) =>
        var price := PriceOf(program, req, found);
        if price.Price? && FitsBigint(price.reserved) && Reserve(a.program, price.reserved).None? then
          Moves(GuardFailed(price.reserved))
        else
          var writes := CreateWrites(program, a, req, found);
          if writes.None? then Aborts else Moves(Written(false, {}, writes.value, None))
      case GuardFailed(_) => Aborts
      case Written(_, _, writes, _) =>
        if writes.Changes? then Commits(s.db.(accounts := s.db.accounts[req.program := Changed(a, writes)])) else Aborts
      case _ => Aborts
  }

  function NextRelease(s: Sys, t: TxId): Action
    requires t in s.txs && s.txs[t].op.ReleaseOp?
  {
    var ReleaseOp(p, k) := s.txs[t].op;
    if p !in s.db.accounts || k !in s.db.accounts[p].rows then Aborts
    else
      var a := s.db.accounts[p];
      match s.txs[t].phase
      case Begun => if !Free(s, t, RowLock(p, k)) then Blocked else Moves(RowHeld(a.rows[k]))
      case RowHeld(row) =>
        if row.status.Released? then
          if SafeResponse(row.reserved, row.reserved, Available(a.program)) then Moves(Nothing({k})) else Aborts
        else if row.status.Reconciled? then Aborts
        else if !Free(s, t, ProgramLock(p)) then Blocked
        else Moves(BothHeld(row))
      case BothHeld(row) =>
        var writes := ReleaseWrites(row, a, k);
        if writes.None? then Aborts else Moves(Written(false, {k}, writes.value, None))
      case Written(_, _, writes, _) =>
        if writes.Changes? then Commits(s.db.(accounts := s.db.accounts[p := Changed(a, writes)])) else Aborts
      case Nothing(_) => Commits(s.db)
      case _ => Aborts
  }

  /** markProcessed waits for whoever inserts the same keys; then ON CONFLICT applies to the offset only. */
  function NextMark(s: Sys, t: TxId, created: bool, locked: set<InvoiceId>, writes: Writes, run: Option<Run>,
                    addRun: bool): Action
    requires t in s.txs && s.txs[t].op.Deliver?
  {
    var d := s.txs[t].op.delivery;
    if !Free(s, t, SlotKey(d.slot)) then Blocked
    else if SlotRecorded(s.db.processed, d.slot) then Moves(Marked(created, locked, writes, run, addRun, false))
    else if !Free(s, t, MessageKey(d.event.message)) then Blocked
    else if MessageRecorded(s.db.processed, d.event.message) then Aborts
    else Moves(Marked(created, locked, writes, run, addRun, true))
  }

  function CommitTreasury(db: Db, d: Delivery, phase: Phase): Action
    requires phase.Marked?
  {
    var p := d.event.program;
    if phase.writes.Changes? && p !in db.accounts then Aborts
    else
      var account := if phase.writes.Changes? then Changed(db.accounts[p], phase.writes) else phase.writes.account;
      Commits(Db(db.accounts[p := account],
                 if phase.addRun && phase.run.Some? then db.runs[d.event.message := phase.run.value] else db.runs,
                 if phase.mark then db.processed + {Recorded(d)} else db.processed))
  }

  function NextDelivery(s: Sys, t: TxId): Action
    requires t in s.txs && s.txs[t].op.Deliver?
  {
    var d := s.txs[t].op.delivery;
    var e, p := d.event, d.event.program;
    match s.txs[t].phase
    case Begun => if SlotRecorded(s.db.processed, d.slot) then Moves(Nothing({})) else Moves(SlotUnseen)
    case SlotUnseen => if MessageRecorded(s.db.processed, e.message) then Moves(Nothing({})) else Moves(Unseen)
    case Unseen =>
      if e.version.Fraction? || (e.Reconciliation? && (e.limit.Fraction? || e.declared.Fraction?)) then Aborts
      else if p !in s.db.accounts then Moves(NoProgram)
      else if !Free(s, t, ProgramLock(p)) then Blocked
      else Moves(Holding(s.db.accounts[p].program, false))
    case NoProgram =>
      if e.version.Fraction? || e.limit.Fraction? || !ProgramChecks(CreatedAccount(e).program) then Aborts
      else if !Free(s, t, RefKey(p)) then Blocked
      else if p in s.db.accounts then Aborts
      else Moves(Holding(CreatedAccount(e).program, true))
    case Holding(program, created) =>
      if !NeedsRows(program, created, e) then AfterWork(created, {}, e, LocalWork(program, created, map[], e))
      else if created then Moves(SnapshotHeld(program, created, map[]))
      else if p !in s.db.accounts then Aborts
      else if exists k | k in s.db.accounts[p].rows :: !Free(s, t, RowLock(p, k)) then Blocked
      else Moves(SnapshotHeld(program, created, s.db.accounts[p].rows))
    case SnapshotHeld(program, created, rows) =>
      AfterWork(created, rows.Keys, e, LocalWork(program, created, rows, e))
    case Written(created, locked, writes, run) =>
      if run.None? then NextMark(s, t, created, locked, writes, run, false)
      else if !Free(s, t, RunKey(e.message)) then Blocked
      else Moves(RunStored(created, locked, writes, run, e.message !in s.db.runs))
    case RunStored(created, locked, writes, run, addRun) => NextMark(s, t, created, locked, writes, run, addRun)
    case Marked(_, _, _, _, _, _) => CommitTreasury(s.db, d, s.txs[t].phase)
    case Nothing(_) => Commits(s.db)
    case _ => Aborts
  }

  function Next(s: Sys, t: TxId): Action
    requires t in s.txs
  {
    match s.txs[t].op
    case CreateOp(_, _) => NextCreate(s, t)
    case ReleaseOp(_, _) => NextRelease(s, t)
    case Deliver(_) => NextDelivery(s, t)
  }

  // ---------- schedules ----------

  datatype Turn = Begin(t: TxId, op: Op) | Advance(t: TxId) | Kill(t: TxId)

  function Step(s: Sys, turn: Turn): Sys {
    match turn
    case Begin(t, op) => if t in s.txs then s else s.(txs := s.txs[t := Tx(op, Begun)])
    case Kill(t) => s.(txs := s.txs - {t})
    case Advance(t) =>
      if t !in s.txs then s
      else
        match Next(s, t)
        case Blocked => s
        case Aborts => s.(txs := s.txs - {t})
        case Moves(phase) => s.(txs := s.txs[t := Tx(s.txs[t].op, phase)])
        case Commits(db) => Sys(db, s.txs - {t}, s.committed + [s.txs[t].op])
  }

  function RunSchedule(s: Sys, turns: seq<Turn>): Sys {
    if turns == [] then s else Step(RunSchedule(s, turns[..|turns| - 1]), turns[|turns| - 1])
  }

  lemma RunThen(s: Sys, turns: seq<Turn>, turn: Turn)
    ensures RunSchedule(s, turns + [turn]) == Step(RunSchedule(s, turns), turn)
  {
    assert (turns + [turn])[..|turns|] == turns;
  }
}
