/**
  Interleaved transactions commit what they would commit alone.

  A message's place in Kafka determines the message: `log` gives it for every slot.
 */
module Serializability {
  import opened Wrappers
  import opened Tables
  import opened Messages
  import opened Programs
  import opened Snapshot
  import opened Transactions
  import opened Interleaving

  type Log = Slot -> Delivery

  predicate Conforms(op: Op, log: Log) {
    op.Deliver? ==> op.delivery == log(op.delivery.slot)
  }

  // ---------- what recorded messages have done ----------

  predicate VersionReached(p: Program, version: int) {
    p.treasuryVersion.Some? && version <= p.treasuryVersion.value
  }

  /** A handled message leaves its program at least at its version, unless it contradicts itself. */
  predicate HandledBefore(db: Db, e: Event) {
    && e.program in db.accounts
    && e.version.Whole?
    && (Contradictory(e) || VersionReached(db.accounts[e.program].program, e.version.n))
    && (e.Reconciliation? ==> e.message in db.runs)
  }

  predicate DbOk(db: Db, log: Log) {
    forall q | q in db.processed :: q == Recorded(log(q.slot)) && HandledBefore(db, log(q.slot).event)
  }

  lemma VersionGrows(db: Db, op: Op, p: ProgramId, version: int)
    requires p in db.accounts && VersionReached(db.accounts[p].program, version)
    ensures p in After(db, op).accounts && VersionReached(After(db, op).accounts[p].program, version)
  {
  }

  lemma HandledStays(db: Db, op: Op, e: Event)
    requires HandledBefore(db, e)
    ensures HandledBefore(After(db, op), e)
  {
    if !Contradictory(e) {
      VersionGrows(db, op, e.program, e.version.n);
    }
  }

  /** Handling a message makes it handled. */
  lemma HandledNow(db: Db, d: Delivery)
    requires !SlotRecorded(db.processed, d.slot) && !MessageRecorded(db.processed, d.event.message)
    requires Handle(db, d).Committed?
    ensures HandledBefore(Handle(db, d).db, d.event)
  {
  }

  lemma StepKeepsDbOk(db: Db, op: Op, log: Log)
    requires DbOk(db, log) && Conforms(op, log)
    ensures DbOk(After(db, op), log)
  {
    forall q | q in After(db, op).processed
      ensures q == Recorded(log(q.slot)) && HandledBefore(After(db, op), log(q.slot).event)
    {
      if q in db.processed {
        HandledStays(db, op, log(q.slot).event);
      } else {
        HandledNow(db, op.delivery);
      }
    }
  }

  // ---------- what a transaction knows while it holds its locks ----------

  predicate HasRow(db: Db, p: ProgramId, program: Program) {
    p in db.accounts && db.accounts[p].program == program
  }

  predicate HasOrInserts(db: Db, e: Event, program: Program, created: bool) {
    && e.version.Whole?
    && if created then
         && e.limit.Whole? && e.program !in db.accounts
         && program == CreatedAccount(e).program && ProgramChecks(program)
       else HasRow(db, e.program, program)
  }

  /** The pending writes are those of the transaction run alone on the current state. */
  predicate WorkOk(db: Db, e: Event, created: bool, locked: set<InvoiceId>, writes: Writes, run: Option<Run>) {
    if created then
      && e.program !in db.accounts && locked == {} && writes.NewProgramRows?
      && WorkFor(None, e).Work? && WorkFor(None, e).account == writes.account && WorkFor(None, e).run == run
    else
      && e.program in db.accounts && writes.Changes?
      && var a := db.accounts[e.program];
      && WorkFor(Some(a), e).Work? && WorkFor(Some(a), e).account == Changed(a, writes) && WorkFor(Some(a), e).run == run
      && (forall k | k in a.rows && k !in locked :: k in Changed(a, writes).rows && Changed(a, writes).rows[k] == a.rows[k])
      && a.rows.Keys <= Changed(a, writes).rows.Keys
  }

  predicate RunOk(db: Db, e: Event, run: Option<Run>, addRun: bool) {
    && (addRun ==> run.Some? && e.message !in db.runs)
    && (!addRun && run.Some? ==> e.message in db.runs)
  }

  predicate CreateOk(db: Db, req: CreateRequest, found: Lookups, phase: Phase) {
    match phase
    case Begun => true
    case Holding(program, created) => !created && HasRow(db, req.program, program)
    case InvoiceFree(program) =>
      && HasRow(db, req.program, program)
      && program.status == ProgramActive && req.invoice !in db.accounts[req.program].rows
    case GuardFailed(requested) =>
      && req.program in db.accounts
      && var a := db.accounts[req.program];
      && a.program.status == ProgramActive && req.invoice !in a.rows
      && PriceOf(a.program, req, found).Price? && PriceOf(a.program, req, found).reserved == requested
      && FitsBigint(requested) && Reserve(a.program, requested).None?
    case Written(created, locked, writes, run) =>
      && !created && locked == {} && req.program in db.accounts
      && writes.Changes? && writes.rows.OneRow? && writes.rows.k == req.invoice
      && var a := db.accounts[req.program];
      && req.invoice !in a.rows
      && CreateOn(a, req, found).Done? && CreateOn(a, req, found).account == Changed(a, writes)
    case _ => false
  }

  predicate ReleaseOk(db: Db, p: ProgramId, k: InvoiceId, phase: Phase) {
    phase.Begun? ||
    (&& p in db.accounts && k in db.accounts[p].rows
     && var a := db.accounts[p];
     match phase
     case RowHeld(row) => a.rows[k] == row
     case BothHeld(row) => a.rows[k] == row && row.status.Active?
     case Written(created, locked, writes, run) =>
       && !created && locked == {k} && writes.Changes? && writes.rows.OneRow? && writes.rows.k == k
       && ReleaseOn(a, k).Done? && ReleaseOn(a, k).account == Changed(a, writes)
     case Nothing(locked) => locked == {k} && HitsReleased(a.rows, k)
     case _ => false)
  }

  predicate DeliveryOk(db: Db, d: Delivery, phase: Phase) {
    var e := d.event;
    match phase
    case Begun => true
    case SlotUnseen => true
    case Unseen => true
    case NoProgram => true
    case Holding(program, created) => HasOrInserts(db, e, program, created)
    case SnapshotHeld(program, created, rows) =>
      && HasOrInserts(db, e, program, created)
      && rows == if created then map[] else db.accounts[e.program].rows
    case Written(created, locked, writes, run) => WorkOk(db, e, created, locked, writes, run)
    case RunStored(created, locked, writes, run, addRun) =>
      WorkOk(db, e, created, locked, writes, run) && RunOk(db, e, run, addRun)
    case Marked(created, locked, writes, run, addRun, mark) =>
      && WorkOk(db, e, created, locked, writes, run) && RunOk(db, e, run, addRun)
      && (mark ==> !SlotRecorded(db.processed, d.slot) && !MessageRecorded(db.processed, e.message))
      && (!mark ==> SlotRecorded(db.processed, d.slot))
    case Nothing(locked) =>
      locked == {} && (SlotRecorded(db.processed, d.slot) || MessageRecorded(db.processed, e.message))
    case _ => false
  }

  predicate TxOk(db: Db, tx: Tx) {
    match tx.op
    case CreateOp(req, found) => CreateOk(db, req, found, tx.phase)
    case ReleaseOp(p, k) => ReleaseOk(db, p, k, tx.phase)
    case Deliver(d) => DeliveryOk(db, d, tx.phase)
  }

  /** No lock has two holders. */
  ghost predicate Exclusive(txs: map<TxId, Tx>) {
    forall t, u, r {:trigger Holds(txs[t], r), Holds(txs[u], r)} |
      t in txs && u in txs && t != u :: !(Holds(txs[t], r) && Holds(txs[u], r))
  }

  ghost predicate SysOk(s: Sys, log: Log) {
    && DbOk(s.db, log)
    && (forall t | t in s.txs :: Conforms(s.txs[t].op, log) && TxOk(s.db, s.txs[t]))
    && Exclusive(s.txs)
  }

  // ---------- a move keeps what the transaction itself knows ----------

  lemma CreateMoves(s: Sys, t: TxId)
    requires t in s.txs && s.txs[t].op.CreateOp? && TxOk(s.db, s.txs[t]) && NextCreate(s, t).Moves?
    ensures TxOk(s.db, Tx(s.txs[t].op, NextCreate(s, t).phase))
  {
  }

  lemma ReleaseMoves(s: Sys, t: TxId)
    requires t in s.txs && s.txs[t].op.ReleaseOp? && TxOk(s.db, s.txs[t]) && NextRelease(s, t).Moves?
    ensures TxOk(s.db, Tx(s.txs[t].op, NextRelease(s, t).phase))
  {
  }

  /** With the rows at hand the handler does what it would do on the current account. */
  lemma LocalSnapshotIsCurrent(a: Account, e: Event)
    requires NeedsRows(a.program, false, e)
    ensures
      var mine, alone := LocalWork(a.program, false, a.rows, e), WorkFor(Some(a), e);
      && (mine.Work? <==> alone.Work?)
      && (mine.Work? ==>
            && mine.status == alone.status && mine.run == alone.run
            && alone.account == Changed(a, TreasuryWrites(false, e, mine))
            && a.rows.Keys <= alone.account.rows.Keys)
  {
    var mine := LocalWork(a.program, false, a.rows, e);
    if mine.Work? {
      assert a.rows + mine.account.rows == mine.account.rows;
    }
  }

  /** Without them it changes no row. */
  lemma LocalUpdateIsCurrent(a: Account, rows: Rows, e: Event)
    requires !NeedsRows(a.program, false, e) && e.version.Whole?
    ensures
      var mine, alone := LocalWork(a.program, false, rows, e), WorkFor(Some(a), e);
      && (mine.Work? <==> alone.Work?)
      && (mine.Work? ==>
            && mine.status == alone.status && mine.run == alone.run
            && alone.account == Changed(a, TreasuryWrites(false, e, mine))
            && alone.account.rows == a.rows)
  {
    assert a.ledger + [] == a.ledger;
  }

  /** What a handler works out from its reads is what it would from the current account. */
  lemma LocalIsCurrent(a: Account, rows: Rows, e: Event)
    requires NeedsRows(a.program, false, e) ==> rows == a.rows
    requires e.version.Whole?
    ensures
      var mine, alone := LocalWork(a.program, false, rows, e), WorkFor(Some(a), e);
      && (mine.Work? <==> alone.Work?)
      && (mine.Work? ==>
            && mine.status == alone.status && mine.run == alone.run
            && alone.account == Changed(a, TreasuryWrites(false, e, mine))
            && a.rows.Keys <= alone.account.rows.Keys
            && (!NeedsRows(a.program, false, e) ==> alone.account.rows == a.rows))
  {
    if NeedsRows(a.program, false, e) {
      LocalSnapshotIsCurrent(a, e);
    } else {
      LocalUpdateIsCurrent(a, rows, e);
    }
  }

  lemma DeliveryMoves(s: Sys, t: TxId)
    requires t in s.txs && s.txs[t].op.Deliver? && TxOk(s.db, s.txs[t]) && NextDelivery(s, t).Moves?
    ensures TxOk(s.db, Tx(s.txs[t].op, NextDelivery(s, t).phase))
  {
    var phase := s.txs[t].phase;
    if phase.Holding? || phase.SnapshotHeld? {
      WorkMoves(s, t);
    }
  }

  lemma WorkMoves(s: Sys, t: TxId)
    requires t in s.txs && s.txs[t].op.Deliver? && TxOk(s.db, s.txs[t]) && NextDelivery(s, t).Moves?
    requires s.txs[t].phase.Holding? || s.txs[t].phase.SnapshotHeld?
    ensures TxOk(s.db, Tx(s.txs[t].op, NextDelivery(s, t).phase))
  {
    var e, phase := s.txs[t].op.delivery.event, s.txs[t].phase;
    if !phase.created {
      var a := s.db.accounts[e.program];
      LocalIsCurrent(a, if NeedsRows(a.program, false, e) then a.rows else map[], e);
      if phase.SnapshotHeld? {
        LocalIsCurrent(a, phase.rows, e);
      }
    }
  }

  lemma MoveKeepsTx(s: Sys, t: TxId)
    requires t in s.txs && TxOk(s.db, s.txs[t]) && Next(s, t).Moves?
    ensures TxOk(s.db, Tx(s.txs[t].op, Next(s, t).phase))
  {
    match s.txs[t].op
    case CreateOp(_, _) => CreateMoves(s, t);
    case ReleaseOp(_, _) => ReleaseMoves(s, t);
    case Deliver(_) => DeliveryMoves(s, t);
  }

  /** A move only takes locks that are free. */
  predicate TakesFree(s: Sys, t: TxId, r: Resource)
    requires t in s.txs && Next(s, t).Moves?
  {
    Holds(Tx(s.txs[t].op, Next(s, t).phase), r) ==> Holds(s.txs[t], r) || Free(s, t, r)
  }

  lemma ApiTakesFree(s: Sys, t: TxId, r: Resource)
    requires t in s.txs && TxOk(s.db, s.txs[t]) && Next(s, t).Moves? && !s.txs[t].op.Deliver?
    ensures TakesFree(s, t, r)
  {
  }

  lemma DeliveryTakesFree(s: Sys, t: TxId, r: Resource)
    requires t in s.txs && TxOk(s.db, s.txs[t]) && Next(s, t).Moves? && s.txs[t].op.Deliver?
    ensures TakesFree(s, t, r)
  {
    if s.txs[t].phase.Written? || s.txs[t].phase.RunStored? {
      MarkTakesFree(s, t, r);
    } else {
      ReadTakesFree(s, t, r);
    }
  }

  lemma MarkTakesFree(s: Sys, t: TxId, r: Resource)
    requires t in s.txs && TxOk(s.db, s.txs[t]) && Next(s, t).Moves? && s.txs[t].op.Deliver?
    requires s.txs[t].phase.Written? || s.txs[t].phase.RunStored?
    ensures TakesFree(s, t, r)
  {
  }

  lemma ReadTakesFree(s: Sys, t: TxId, r: Resource)
    requires t in s.txs && TxOk(s.db, s.txs[t]) && Next(s, t).Moves? && s.txs[t].op.Deliver?
    requires !s.txs[t].phase.Written? && !s.txs[t].phase.RunStored?
    ensures TakesFree(s, t, r)
  {
  }

  lemma MoveTakesFree(s: Sys, t: TxId, r: Resource)
    requires t in s.txs && TxOk(s.db, s.txs[t]) && Next(s, t).Moves?
    ensures TakesFree(s, t, r)
  {
    if s.txs[t].op.Deliver? {
      DeliveryTakesFree(s, t, r);
    } else {
      ApiTakesFree(s, t, r);
    }
  }

  // ---------- a commit is the transaction run alone ----------

  lemma ApiCommitIsAtomic(s: Sys, t: TxId)
    requires t in s.txs && !s.txs[t].op.Deliver?
    requires TxOk(s.db, s.txs[t]) && Next(s, t).Commits?
    ensures Next(s, t).db == After(s.db, s.txs[t].op)
  {
    if s.txs[t].op.ReleaseOp? && s.txs[t].phase.Nothing? {
      var p := s.txs[t].op.program;
      assert s.db.accounts[p := s.db.accounts[p]] == s.db.accounts;
    }
  }

  lemma CommitIsAtomic(s: Sys, t: TxId, log: Log)
    requires t in s.txs && DbOk(s.db, log) && Conforms(s.txs[t].op, log)
    requires TxOk(s.db, s.txs[t]) && Next(s, t).Commits?
    ensures Next(s, t).db == After(s.db, s.txs[t].op)
    ensures s.txs[t].op.Deliver? ==> Atomic(s.db, s.txs[t].op).Committed?
  {
    if !s.txs[t].op.Deliver? {
      ApiCommitIsAtomic(s, t);
    } else if s.txs[t].phase.Marked? {
      CommitOfDelivery(s.db, s.txs[t].op.delivery, s.txs[t].phase, log);
    } else {
      assert s.txs[t].phase.Nothing?;
    }
  }

  /** When the offset was recorded meanwhile, the message had been handled, and nothing is left to write. */
  lemma CommitOfDelivery(db: Db, d: Delivery, phase: Phase, log: Log)
    requires DbOk(db, log) && d == log(d.slot)
    requires phase.Marked? && DeliveryOk(db, d, phase)
    ensures CommitTreasury(db, d, phase).Commits?
    ensures Handle(db, d).Committed? && CommitTreasury(db, d, phase).db == Handle(db, d).db
  {
    if !phase.mark {
      var a := db.accounts[d.event.program];
      assert db.accounts[d.event.program := a] == db.accounts;
    }
  }

  // ---------- a commit leaves alone what others hold ----------

  /** Nothing that `other` holds a lock on has changed. */
  ghost predicate Respects(db: Db, next: Db, other: Tx) {
    && (forall p | p in db.accounts ::
          && p in next.accounts
          && (Holds(other, ProgramLock(p)) ==> next.accounts[p] == db.accounts[p]))
    && (forall p | p !in db.accounts && p in next.accounts :: !Holds(other, RefKey(p)))
    && (forall p, k | p in db.accounts && k in db.accounts[p].rows ::
          && k in next.accounts[p].rows
          && (Holds(other, RowLock(p, k)) ==> next.accounts[p].rows[k] == db.accounts[p].rows[k]))
    && db.runs.Keys <= next.runs.Keys
    && (forall m | m in next.runs && m !in db.runs :: !Holds(other, RunKey(m)))
    && db.processed <= next.processed
    && (forall q | q in next.processed && q !in db.processed ::
          !Holds(other, SlotKey(q.slot)) && !Holds(other, MessageKey(q.message)))
  }

  /** Whatever differs between the two states, `tx` holds a lock on. */
  ghost predicate TouchesOnlyHeld(db: Db, next: Db, tx: Tx) {
    && (forall p | p in db.accounts ::
          p in next.accounts && (Holds(tx, ProgramLock(p)) || next.accounts[p] == db.accounts[p]))
    && (forall p | p !in db.accounts && p in next.accounts :: Holds(tx, RefKey(p)))
    && (forall p, k | p in db.accounts && k in db.accounts[p].rows ::
          && k in next.accounts[p].rows
          && (Holds(tx, RowLock(p, k)) || next.accounts[p].rows[k] == db.accounts[p].rows[k]))
    && db.runs.Keys <= next.runs.Keys
    && (forall m | m in next.runs && m !in db.runs :: Holds(tx, RunKey(m)))
    && db.processed <= next.processed
    && (forall q | q in next.processed && q !in db.processed ::
          Holds(tx, SlotKey(q.slot)) && Holds(tx, MessageKey(q.message)))
  }

  lemma CreateCommitTouches(s: Sys, t: TxId)
    requires t in s.txs && s.txs[t].op.CreateOp?
    requires TxOk(s.db, s.txs[t]) && Next(s, t).Commits?
    ensures TouchesOnlyHeld(s.db, Next(s, t).db, s.txs[t])
  {
    assert Holds(s.txs[t], ProgramLock(s.txs[t].op.req.program));
  }

  lemma ReleaseCommitTouches(s: Sys, t: TxId)
    requires t in s.txs && s.txs[t].op.ReleaseOp?
    requires TxOk(s.db, s.txs[t]) && Next(s, t).Commits?
    ensures TouchesOnlyHeld(s.db, Next(s, t).db, s.txs[t])
  {
    assert Holds(s.txs[t], RowLock(s.txs[t].op.program, s.txs[t].op.invoice));
  }

  lemma DeliveryCommitTouches(s: Sys, t: TxId)
    requires t in s.txs && s.txs[t].op.Deliver?
    requires TxOk(s.db, s.txs[t]) && Next(s, t).Commits?
    ensures TouchesOnlyHeld(s.db, Next(s, t).db, s.txs[t])
  {
    var tx := s.txs[t];
    if tx.phase.Marked? {
      MarkedTouches(s.db, tx);
    } else {
      assert Next(s, t).db == s.db;
    }
  }

  lemma MarkedTouches(db: Db, tx: Tx)
    requires tx.op.Deliver? && tx.phase.Marked? && TxOk(db, tx)
    requires CommitTreasury(db, tx.op.delivery, tx.phase).Commits?
    ensures TouchesOnlyHeld(db, CommitTreasury(db, tx.op.delivery, tx.phase).db, tx)
  {
    var next, p := CommitTreasury(db, tx.op.delivery, tx.phase).db, OpProgram(tx.op);
    assert if tx.phase.created then Holds(tx, RefKey(p)) else Holds(tx, ProgramLock(p));
    forall m | m in next.runs && m !in db.runs
      ensures Holds(tx, RunKey(m))
    {
    }
    forall q | q in next.processed && q !in db.processed
      ensures Holds(tx, SlotKey(q.slot)) && Holds(tx, MessageKey(q.message))
    {
      assert q == Recorded(tx.op.delivery);
    }
  }

  lemma CommitRespects(s: Sys, t: TxId, u: TxId)
    requires t in s.txs && u in s.txs && t != u
    requires TxOk(s.db, s.txs[t]) && Exclusive(s.txs) && Next(s, t).Commits?
    ensures Respects(s.db, Next(s, t).db, s.txs[u])
  {
    match s.txs[t].op
    case CreateOp(_, _) => CreateCommitTouches(s, t);
    case ReleaseOp(_, _) => ReleaseCommitTouches(s, t);
    case Deliver(_) => DeliveryCommitTouches(s, t);
    HeldByOther(s.db, Next(s, t).db, s.txs[t], s.txs[u]);
  }

  lemma HeldByOther(db: Db, next: Db, tx: Tx, other: Tx)
    requires TouchesOnlyHeld(db, next, tx)
    requires forall r :: !(Holds(tx, r) && Holds(other, r))
    ensures Respects(db, next, other)
  {
  }

  lemma RespectedCreate(db: Db, next: Db, other: Tx)
    requires other.op.CreateOp? && TxOk(db, other) && Respects(db, next, other)
    ensures TxOk(next, other)
  {
    assert Holds(other, ProgramLock(other.op.req.program)) || other.phase.Begun?;
  }

  lemma RespectedRelease(db: Db, next: Db, other: Tx)
    requires other.op.ReleaseOp? && TxOk(db, other) && Respects(db, next, other)
    ensures TxOk(next, other)
  {
    assert Holds(other, RowLock(other.op.program, other.op.invoice)) || other.phase.Begun?;
    assert other.phase.BothHeld? || other.phase.Written? ==> Holds(other, ProgramLock(other.op.program));
  }

  /** What holds of a message's program, while its row is locked or inserted, goes on to hold. */
  lemma RespectedProgram(db: Db, next: Db, other: Tx)
    requires other.op.Deliver? && TxOk(db, other) && Respects(db, next, other) && HasProgram(other.phase)
    ensures
      var p := other.op.delivery.event.program;
      if Inserted(other.phase) then p !in next.accounts
      else p in db.accounts && p in next.accounts && next.accounts[p] == db.accounts[p]
  {
    var p := other.op.delivery.event.program;
    assert Holds(other, if Inserted(other.phase) then RefKey(p) else ProgramLock(p));
  }

  lemma RespectedKeys(db: Db, next: Db, other: Tx)
    requires other.op.Deliver? && TxOk(db, other) && Respects(db, next, other)
    ensures
      var d := other.op.delivery;
      && (other.phase.RunStored? || other.phase.Marked? ==>
            RunOk(next, d.event, other.phase.run, other.phase.addRun))
      && (other.phase.Marked? && other.phase.mark ==>
            !SlotRecorded(next.processed, d.slot) && !MessageRecorded(next.processed, d.event.message))
      && (SlotRecorded(db.processed, d.slot) ==> SlotRecorded(next.processed, d.slot))
      && (MessageRecorded(db.processed, d.event.message) ==> MessageRecorded(next.processed, d.event.message))
  {
    var d := other.op.delivery;
    if other.phase.RunStored? || other.phase.Marked? {
      assert other.phase.addRun ==> Holds(other, RunKey(d.event.message));
    }
    if other.phase.Marked? && other.phase.mark {
      assert Holds(other, SlotKey(d.slot)) && Holds(other, MessageKey(d.event.message));
    }
  }

  lemma RespectedDelivery(db: Db, next: Db, other: Tx)
    requires other.op.Deliver? && TxOk(db, other) && Respects(db, next, other)
    ensures TxOk(next, other)
  {
    RespectedKeys(db, next, other);
    if HasProgram(other.phase) {
      RespectedProgram(db, next, other);
    }
  }

  lemma RespectedTxOk(db: Db, next: Db, other: Tx)
    requires TxOk(db, other) && Respects(db, next, other)
    ensures TxOk(next, other)
  {
    match other.op
    case CreateOp(_, _) => RespectedCreate(db, next, other);
    case ReleaseOp(_, _) => RespectedRelease(db, next, other);
    case Deliver(_) => RespectedDelivery(db, next, other);
  }

  // ---------- every step, every schedule ----------

  lemma ExclusiveMove(s: Sys, t: TxId)
    requires t in s.txs && TxOk(s.db, s.txs[t]) && Exclusive(s.txs) && Next(s, t).Moves?
    ensures Exclusive(s.txs[t := Tx(s.txs[t].op, Next(s, t).phase)])
  {
    var txs := s.txs[t := Tx(s.txs[t].op, Next(s, t).phase)];
    forall u, v, r | u in txs && v in txs && u != v
      ensures !(Holds(txs[u], r) && Holds(txs[v], r))
    {
      if u == t && Holds(txs[t], r) {
        MoveTakesFree(s, t, r);
      }
      if v == t && Holds(txs[t], r) {
        MoveTakesFree(s, t, r);
      }
    }
  }

  lemma MoveKeepsSys(s: Sys, t: TxId, log: Log)
    requires SysOk(s, log) && t in s.txs && Next(s, t).Moves?
    ensures SysOk(Step(s, Advance(t)), log)
  {
    MoveKeepsTx(s, t);
    ExclusiveMove(s, t);
  }

  lemma CommitKeepsSys(s: Sys, t: TxId, log: Log)
    requires SysOk(s, log) && t in s.txs && Next(s, t).Commits?
    ensures SysOk(Step(s, Advance(t)), log)
  {
    CommitIsAtomic(s, t, log);
    StepKeepsDbOk(s.db, s.txs[t].op, log);
    forall u | u in s.txs && u != t
      ensures TxOk(Next(s, t).db, s.txs[u])
    {
      CommitRespects(s, t, u);
      RespectedTxOk(s.db, Next(s, t).db, s.txs[u]);
    }
  }

  lemma StepKeepsSys(s: Sys, turn: Turn, log: Log)
    requires SysOk(s, log)
    requires turn.Begin? ==> Conforms(turn.op, log)
    ensures SysOk(Step(s, turn), log)
  {
    if turn.Advance? && turn.t in s.txs {
      match Next(s, turn.t)
      case Moves(_) => MoveKeepsSys(s, turn.t, log);
      case Commits(_) => CommitKeepsSys(s, turn.t, log);
      case _ =>
    }
  }

  /** The operations committed, one after another, with deliveries that did not abort. */
  predicate CommittedOk(db: Db, ops: seq<Op>) {
    ops == [] ||
    (var init, last := ops[..|ops| - 1], ops[|ops| - 1];
     CommittedOk(db, init) && (last.Deliver? ==> Atomic(Exec(db, init), last).Committed?))
  }

  /** The start: nothing under way. */
  predicate Idle(s: Sys) {
    s.txs == map[] && s.committed == []
  }

  predicate AllConform(turns: seq<Turn>, log: Log) {
    forall i | 0 <= i < |turns| && turns[i].Begin? :: Conforms(turns[i].op, log)
  }

  /** The committed state is that of the committed operations run one after another. */
  ghost predicate Serial(start: Db, s: Sys, log: Log) {
    && s.db == Exec(start, s.committed)
    && CommittedOk(start, s.committed)
    && (forall i | 0 <= i < |s.committed| :: Conforms(s.committed[i], log))
  }

  lemma CommitIsSerial(start: Db, s: Sys, t: TxId, log: Log)
    requires SysOk(s, log) && Serial(start, s, log)
    requires t in s.txs && Next(s, t).Commits?
    ensures Serial(start, Step(s, Advance(t)), log)
  {
    CommitIsAtomic(s, t, log);
    CommittedAppend(start, s.committed, s.txs[t].op);
  }

  lemma CommittedAppend(db: Db, ops: seq<Op>, op: Op)
    requires CommittedOk(db, ops) && (op.Deliver? ==> Atomic(Exec(db, ops), op).Committed?)
    ensures CommittedOk(db, ops + [op]) && Exec(db, ops + [op]) == After(Exec(db, ops), op)
  {
    assert (ops + [op])[..|ops|] == ops;
  }

  /**
    In every interleaving, the committed state is the one the committed transactions reach
    when they run one after another, each alone, in the order of their commits.
   */
  lemma {:induction false} Serializable(s: Sys, turns: seq<Turn>, log: Log)
    requires Idle(s) && DbOk(s.db, log) && AllConform(turns, log)
    ensures
      var end := RunSchedule(s, turns);
      && SysOk(end, log)
      && end.db == Exec(s.db, end.committed)
      && CommittedOk(s.db, end.committed)
      && (forall i | 0 <= i < |end.committed| :: Conforms(end.committed[i], log))
  {
    if turns != [] {
      var init, turn := turns[..|turns| - 1], turns[|turns| - 1];
      assert forall i | 0 <= i < |init| :: init[i] == turns[i];
      Serializable(s, init, log);
      var before := RunSchedule(s, init);
      StepKeepsSys(before, turn, log);
      if turn.Advance? && turn.t in before.txs && Next(before, turn.t).Commits? {
        CommitIsSerial(s.db, before, turn.t, log);
      }
    }
  }
}
