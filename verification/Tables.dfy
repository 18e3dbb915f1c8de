/**
  The tables of prisma/migrations/20260705000000_init/migration.sql.

  A program is identified by its unique external reference and a reservation by its
  unique (program, invoice) pair; neither is ever updated, so they stand for the
  generated UUIDs. Rows that carry a program_id are grouped by program: an Account is
  the programs row together with that program's reservations and ledger entries.
 */
module Tables {
  import opened Wrappers

  type ProgramId = string
  type InvoiceId = string
  type MessageId = string
  type Currency = string

  const MAX_BIGINT := 0x7FFF_FFFF_FFFF_FFFF
  const MAX_SMALLINT := 0x7FFF

  predicate FitsBigint(n: int) {
    -MAX_BIGINT - 1 <= n <= MAX_BIGINT
  }

  predicate FitsSmallint(n: int) {
    -MAX_SMALLINT - 1 <= n <= MAX_SMALLINT
  }

  /** CHAR(3): PostgreSQL drops blanks beyond the third character and refuses anything else. */
  predicate FitsChar3(code: string) {
    forall i | 3 <= i < |code| :: code[i] == ' '
  }

  // ---------- programs ----------

  /** The status column is free text; the code compares it with these two values. */
  datatype ProgramStatus = ProgramActive | ProgramOverLimit | ProgramOther(text: string)

  datatype Program = Program(
    currency: Currency,
    exponent: int,
    limit: int,
    reserved: int,
    status: ProgramStatus,
    version: nat,
    treasuryVersion: Option<int>)

  /** Column ranges and CHECK constraints of a programs row. */
  predicate ProgramChecks(p: Program) {
    && 0 <= p.limit <= MAX_BIGINT
    && 0 <= p.reserved <= MAX_BIGINT
    && FitsChar3(p.currency)
    && FitsSmallint(p.exponent)
    && (p.treasuryVersion.Some? ==> FitsBigint(p.treasuryVersion.value))
  }

  // ---------- invoice_reservations ----------

  datatype ReservationStatus = Active | Released | Reconciled

  datatype RateSource = Identity | FxTable(name: string) | TreasuryRate

  datatype RowSource = Api | Treasury

  datatype Reservation = Reservation(
    invoiceCurrency: Currency,
    invoiceExponent: int,
    invoiceAmount: int,
    programCurrency: Currency,
    programExponent: int,
    reserved: int,
    rate: nat,                       // in units of 10^-10
    rateSource: RateSource,
    status: ReservationStatus,
    source: RowSource,
    reconciliation: Option<MessageId>)

  type Rows = map<InvoiceId, Reservation>

  /** Column ranges and CHECK constraints of an invoice_reservations row. */
  predicate ReservationChecks(r: Reservation) {
    && FitsChar3(r.invoiceCurrency)
    && FitsChar3(r.programCurrency)
    && 0 < r.invoiceAmount <= MAX_BIGINT
    && 0 < r.reserved <= MAX_BIGINT
  }

  // ---------- capacity_ledger ----------

  datatype LedgerEvent =
    | ProgramCreated
    | ReservationCreated(invoice: InvoiceId)
    | ReservationReleased(released: InvoiceId)
    | TreasuryUpdateApplied(update: MessageId)
    | TreasuryReconciliationApplied(message: MessageId, limitDifference: int)

  datatype LedgerEntry = LedgerEntry(event: LedgerEvent, amount: int, currency: Currency)

  datatype Account = Account(program: Program, rows: Rows, ledger: seq<LedgerEntry>)

  // ---------- reconciliation_runs ----------

  datatype ConflictReason = CurrencyMismatch | SumMismatch

  datatype RunStatus =
    | AppliedRun(items: nat, inserted: nat, updated: nat, reconciled: nat, conflicts: nat)
    | StaleSkipped
    | ConflictRun(reason: ConflictReason)

  datatype Run = Run(
    program: ProgramId,
    treasuryLimit: int,
    treasuryReserved: int,
    limitBefore: int,
    reservedBefore: int,
    limitDifference: int,
    reservedDifference: int,
    status: RunStatus)

  predicate RunChecks(r: Run) {
    && FitsBigint(r.treasuryLimit)
    && FitsBigint(r.treasuryReserved)
    && FitsBigint(r.limitBefore)
    && FitsBigint(r.reservedBefore)
    && FitsBigint(r.limitDifference)
    && FitsBigint(r.reservedDifference)
  }

  // ---------- processed_kafka_messages ----------

  datatype MessageType = CapacityUpdated | ReconciliationSnapshot

  /** Where a message lies in Kafka. */
  datatype Slot = Slot(topic: string, partition: int, offset: int)

  datatype Processed = Processed(
    slot: Slot,
    message: MessageId,
    messageType: MessageType,
    program: ProgramId,
    hash: string)

  /** findByTopicPartitionOffset */
  predicate SlotRecorded(processed: set<Processed>, slot: Slot) {
    exists p | p in processed :: p.slot == slot
  }

  /** findByExternalMessageId */
  predicate MessageRecorded(processed: set<Processed>, message: MessageId) {
    exists p | p in processed :: p.message == message
  }

  /** The message is recorded with a different payload hash. */
  predicate RecordedDifferently(processed: set<Processed>, message: MessageId, hash: string) {
    exists p | p in processed :: p.message == message && p.hash != hash
  }

  // ---------- the database ----------

  datatype Db = Db(
    accounts: map<ProgramId, Account>,
    runs: map<MessageId, Run>,
    processed: set<Processed>)

  /** A database the service starts from: programs without reservations, and no messages. */
  predicate Initial(db: Db) {
    && db.runs == map[]
    && db.processed == {}
    && forall p | p in db.accounts ::
         var a := db.accounts[p];
         && ProgramChecks(a.program)
         && a.program.reserved == 0
         && a.program.status == ProgramActive
         && a.rows == map[]
         && a.ledger == []
  }
}
