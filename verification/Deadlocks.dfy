/**
  Who waits for whom. Transactions can end up waiting for each other in one way only: a
  release that holds an ACTIVE reservation and needs the program, against a reconciliation
  that holds the program and needs its reservations.
 */
module Deadlocks {
  import opened Tables
  import opened Messages
  import opened Transactions
  import opened Interleaving
  import opened Serializability
  import opened TreasuryEffects

  /** markProcessed asks for the key of the offset, and for that of the message unless the offset is recorded. */
  function MarkNeeds(db: Db, d: Delivery): set<Resource> {
    {SlotKey(d.slot)} + if SlotRecorded(db.processed, d.slot) then {} else {MessageKey(d.event.message)}
  }

  function DeliveryNeeds(db: Db, d: Delivery, phase: Phase): set<Resource> {
    var e, p := d.event, d.event.program;
    match phase
    case Unseen =>
      if e.version.Fraction? || (e.Reconciliation? && (e.limit.Fraction? || e.declared.Fraction?)) then {}
      else if p in db.accounts then {ProgramLock(p)}
      else {}
    case NoProgram =>
      if e.version.Fraction? || e.limit.Fraction? || !ProgramChecks(CreatedAccount(e).program) then {}
      else {RefKey(p)}
    case Holding(program, created) =>
      if NeedsRows(program, created, e) && !created && p in db.accounts then
        set k | k in db.accounts[p].rows :: RowLock(p, k)
      else {}
    case Written(_, _, _, run) => if run.None? then MarkNeeds(db, d) else {RunKey(e.message)}
    case RunStored(_, _, _, _, _) => MarkNeeds(db, d)
    case _ => {}
  }

  /** The locks and keys a transaction asks for at its next step. */
  function Needs(db: Db, tx: Tx): set<Resource> {
    match tx.op
    case CreateOp(req, _) =>
      if tx.phase.Begun? && req.program in db.accounts then {ProgramLock(req.program)} else {}
    case ReleaseOp(p, k) =>
      if p !in db.accounts || k !in db.accounts[p].rows then {}
      else if tx.phase.Begun? then {RowLock(p, k)}
      else if tx.phase.RowHeld? && tx.phase.row.status.Active? then {ProgramLock(p)}
      else {}
    case Deliver(d) => DeliveryNeeds(db, d, tx.phase)
  }

  /** t waits for u: u holds something t needs. */
  predicate Waits(s: Sys, t: TxId, u: TxId) {
    && t in s.txs && u in s.txs && t != u
    && exists r | r in Needs(s.db, s.txs[t]) :: Holds(s.txs[u], r)
  }

  /** A reconciliation locks reservations exactly when it goes on to apply a snapshot. */
  lemma LocksRowsIff(program: Program, created: bool, e: Event)
    requires e.Reconciliation? && e.version.Whole? && e.declared.Whole?
    ensures NeedsRows(program, created, e) <==>
              && (created || !NotNewer(program, e))
              && (forall i | 0 <= i < |e.items| :: e.items[i].amount.Whole?)
              && Consistent(e)
  {
  }

  /** t releases an ACTIVE reservation that u, a reconciliation about to be applied to its program, will lock. */
  predicate Opposed(s: Sys, t: TxId, u: TxId) {
    && t in s.txs && s.txs[t].op.ReleaseOp? && s.txs[t].phase.RowHeld? && s.txs[t].phase.row.status.Active?
    && u in s.txs && s.txs[u].op.Deliver? && s.txs[u].op.delivery.event.program == s.txs[t].op.program
    && s.txs[u].phase.Holding? && !s.txs[u].phase.created
    && NeedsRows(s.txs[u].phase.program, false, s.txs[u].op.delivery.event)
  }

  predicate LockedOut(s: Sys) {
    exists t, u | t in s.txs && u in s.txs :: Opposed(s, t, u)
  }

  /** But for opposed transactions, one only waits for transactions of a smaller rank. */
  function Rank(tx: Tx): nat {
    match tx.op
    case CreateOp(_, _) => if tx.phase.Begun? then 4 else 0
    case ReleaseOp(_, _) =>
      if tx.phase.Begun? then 5 else if tx.phase.RowHeld? && tx.phase.row.status.Active? then 4 else 0
    case Deliver(_) =>
      match tx.phase
      case Unseen => 4
      case NoProgram => 4
      case Holding(_, _) => 3
      case Written(_, _, _, run) => if run.Some? then 2 else 1
      case RunStored(_, _, _, _, _) => 1
      case _ => 0
  }

  lemma WaitsDownwards(s: Sys, t: TxId, u: TxId)
    requires Waits(s, t, u) && !Opposed(s, u, t)
    ensures Rank(s.txs[u]) < Rank(s.txs[t])
  {
    var r :| r in Needs(s.db, s.txs[t]) && Holds(s.txs[u], r);
  }

  /** Being blocked is waiting for someone. */
  lemma BlockedIsWaiting(s: Sys, t: TxId)
    requires t in s.txs
    ensures Next(s, t).Blocked? <==> exists u :: Waits(s, t, u)
  {
    BlockedIsNeeding(s, t);
    if Next(s, t).Blocked? {
      var r :| r in Needs(s.db, s.txs[t]) && !Free(s, t, r);
      var u :| u in s.txs && u != t && Holds(s.txs[u], r);
      assert Waits(s, t, u);
    }
    if u :| Waits(s, t, u) {
      var r :| r in Needs(s.db, s.txs[t]) && Holds(s.txs[u], r);
      assert !Free(s, t, r);
    }
  }

  lemma BlockedIsNeeding(s: Sys, t: TxId)
    requires t in s.txs
    ensures Next(s, t).Blocked? <==> exists r | r in Needs(s.db, s.txs[t]) :: !Free(s, t, r)
  {
    if s.txs[t].op.Deliver? && s.txs[t].phase.Holding? {
      HoldingIsNeeding(s, t);
    }
  }

  lemma HoldingIsNeeding(s: Sys, t: TxId)
    requires t in s.txs && s.txs[t].op.Deliver? && s.txs[t].phase.Holding?
    ensures NextDelivery(s, t).Blocked? <==> exists r | r in Needs(s.db, s.txs[t]) :: !Free(s, t, r)
  {
    var p := s.txs[t].op.delivery.event.program;
    if p in s.db.accounts {
      forall k | k in s.db.accounts[p].rows && !Free(s, t, RowLock(p, k)) && Needs(s.db, s.txs[t]) != {}
        ensures RowLock(p, k) in Needs(s.db, s.txs[t])
      {
      }
    }
  }

  /** Each of the path waits for the next. */
  predicate WaitPath(s: Sys, path: seq<TxId>) {
    forall i | 0 <= i < |path| - 1 :: Waits(s, path[i], path[i + 1])
  }

  ghost predicate WaitCycle(s: Sys) {
    exists path :: |path| > 1 && WaitPath(s, path) && path[0] == path[|path| - 1]
  }

  lemma {:induction false} PathDescends(s: Sys, path: seq<TxId>)
    requires !LockedOut(s) && WaitPath(s, path) && |path| > 1
    ensures path[0] in s.txs && path[|path| - 1] in s.txs
    ensures Rank(s.txs[path[|path| - 1]]) + |path| - 1 <= Rank(s.txs[path[0]])
  {
    var init := path[..|path| - 1];
    var last := path[|path| - 1];
    assert Waits(s, path[|path| - 2], path[|path| - 2 + 1]);
    WaitsDownwards(s, path[|path| - 2], last);
    if |init| > 1 {
      forall i | 0 <= i < |init| - 1
        ensures Waits(s, init[i], init[i + 1])
      {
        assert Waits(s, path[i], path[i + 1]);
      }
      PathDescends(s, init);
    }
  }

  /** The reservation a release holds is in the table. */
  predicate HeldRowsExist(s: Sys) {
    forall t | t in s.txs && s.txs[t].op.ReleaseOp? && s.txs[t].phase.RowHeld? ::
      var p := s.txs[t].op.program;
      p in s.db.accounts && s.txs[t].op.invoice in s.db.accounts[p].rows
  }

  lemma HeldRowExists(db: Db, tx: Tx)
    requires TxOk(db, tx) && tx.op.ReleaseOp? && tx.phase.RowHeld?
    ensures tx.op.program in db.accounts && tx.op.invoice in db.accounts[tx.op.program].rows
  {
  }

  /** Opposed transactions wait for each other. */
  lemma OpposedWait(s: Sys, t: TxId, u: TxId)
    requires Opposed(s, t, u) && HeldRowsExist(s)
    ensures Waits(s, t, u) && Waits(s, u, t)
  {
    var p, k := s.txs[t].op.program, s.txs[t].op.invoice;
    assert ProgramLock(p) in Needs(s.db, s.txs[t]) && Holds(s.txs[u], ProgramLock(p));
    assert RowLock(p, k) in Needs(s.db, s.txs[u]) && Holds(s.txs[t], RowLock(p, k));
  }

  lemma OpposedCycle(s: Sys)
    requires LockedOut(s) && HeldRowsExist(s)
    ensures WaitCycle(s)
  {
    var t: TxId, u: TxId :| t in s.txs && u in s.txs && Opposed(s, t, u);
    OpposedWait(s, t, u);
    var path := [t, u, t];
    assert WaitPath(s, path) && path[0] == path[|path| - 1];
  }

  lemma CycleIsOpposed(s: Sys)
    requires WaitCycle(s)
    ensures LockedOut(s)
  {
    var path: seq<TxId> :| |path| > 1 && WaitPath(s, path) && path[0] == path[|path| - 1];
    if !LockedOut(s) {
      PathDescends(s, path);
    }
  }

  /**
    In every reachable state of all four transactions, some wait for each other in a circle
    iff a release and a reconciliation are opposed.
   */
  lemma {:induction false} DeadlockIff(s: Sys, turns: seq<Turn>, log: Log)
    requires Idle(s) && DbOk(s.db, log) && AllConform(turns, log)
    ensures WaitCycle(RunSchedule(s, turns)) <==> LockedOut(RunSchedule(s, turns))
  {
    Serializable(s, turns, log);
    var end := RunSchedule(s, turns);
    if LockedOut(end) {
      forall t | t in end.txs && end.txs[t].op.ReleaseOp? && end.txs[t].phase.RowHeld? {
        HeldRowExists(end.db, end.txs[t]);
      }
      OpposedCycle(end);
    }
    if WaitCycle(end) {
      CycleIsOpposed(end);
    }
  }

  /** Unless some are opposed, a transaction that has not finished can go on. */
  lemma SomeoneCanStep(s: Sys)
    requires !LockedOut(s) && s.txs != map[]
    ensures exists t | t in s.txs :: !Next(s, t).Blocked?
  {
    var t :| t in s.txs;
    var u := Descend(s, t);
  }

  /** Following the waiting ends at a transaction that does not wait. */
  lemma {:induction false} Descend(s: Sys, t: TxId) returns (u: TxId)
    requires !LockedOut(s) && t in s.txs
    ensures u in s.txs && !Next(s, u).Blocked?
    decreases Rank(s.txs[t])
  {
    if Next(s, t).Blocked? {
      BlockedIsWaiting(s, t);
      var v :| Waits(s, t, v);
      WaitsDownwards(s, t, v);
      u := Descend(s, v);
    } else {
      u := t;
    }
  }

  // ---------- creates and releases only ----------

  predicate ApiOnly(s: Sys) {
    forall t | t in s.txs :: !s.txs[t].op.Deliver?
  }

  /** Without deliveries there is no cycle of waiting, and no chain of more than three. */
  lemma NoCycle(s: Sys, path: seq<TxId>)
    requires ApiOnly(s) && WaitPath(s, path) && |path| > 1
    ensures path[0] != path[|path| - 1] && |path| <= 3
  {
    PathDescends(s, path);
    if |path| > 3 {
      assert Waits(s, path[0], path[0 + 1]) && Waits(s, path[1], path[1 + 1]) && Waits(s, path[2], path[2 + 1]);
      WaitsDownwards(s, path[0], path[1]);
      WaitsDownwards(s, path[1], path[2]);
      WaitsDownwards(s, path[2], path[3]);
      assert false;
    }
  }

  // ---------- the opposition does occur ----------

  /** The turns by which a release and a reconciliation lock each other out. */
  function Embrace(p: ProgramId, k: InvoiceId, d: Delivery): seq<Turn> {
    [Begin(0, ReleaseOp(p, k))] + [Begin(1, Deliver(d))] + [Advance(0)] + [Advance(1)] + [Advance(1)] + [Advance(1)]
  }

  /** The two transactions under way, and nothing else. */
  function Pair(s: Sys, p: ProgramId, k: InvoiceId, d: Delivery, first: Phase, second: Phase): Sys {
    s.(txs := map[0 := Tx(ReleaseOp(p, k), first), 1 := Tx(Deliver(d), second)])
  }

  lemma PairMoves(s: Sys, p: ProgramId, k: InvoiceId, d: Delivery, first: Phase, second: Phase)
    ensures
      var pair := Pair(s, p, k, d, first, second);
      && (NextRelease(pair, 0).Moves? ==> Step(pair, Advance(0)) == Pair(s, p, k, d, NextRelease(pair, 0).phase, second))
      && (NextDelivery(pair, 1).Moves? ==> Step(pair, Advance(1)) == Pair(s, p, k, d, first, NextDelivery(pair, 1).phase))
  {
    var pair := Pair(s, p, k, d, first, second);
    if NextRelease(pair, 0).Moves? {
      assert pair.txs[0 := Tx(ReleaseOp(p, k), NextRelease(pair, 0).phase)]
          == map[0 := Tx(ReleaseOp(p, k), NextRelease(pair, 0).phase), 1 := Tx(Deliver(d), second)];
    }
    if NextDelivery(pair, 1).Moves? {
      assert pair.txs[1 := Tx(Deliver(d), NextDelivery(pair, 1).phase)]
          == map[0 := Tx(ReleaseOp(p, k), first), 1 := Tx(Deliver(d), NextDelivery(pair, 1).phase)];
    }
  }

  lemma BeginsMakePair(s: Sys, p: ProgramId, k: InvoiceId, d: Delivery)
    requires Idle(s)
    ensures Step(Step(s, Begin(0, ReleaseOp(p, k))), Begin(1, Deliver(d))) == Pair(s, p, k, d, Begun, Begun)
  {
    assert s.txs[0 := Tx(ReleaseOp(p, k), Begun)][1 := Tx(Deliver(d), Begun)]
        == map[0 := Tx(ReleaseOp(p, k), Begun), 1 := Tx(Deliver(d), Begun)];
  }

  lemma BothBegin(s: Sys, p: ProgramId, k: InvoiceId, d: Delivery)
    requires Idle(s)
    ensures RunSchedule(s, [] + [Begin(0, ReleaseOp(p, k))] + [Begin(1, Deliver(d))]) == Pair(s, p, k, d, Begun, Begun)
  {
    RunThen(s, [], Begin(0, ReleaseOp(p, k)));
    RunThen(s, [] + [Begin(0, ReleaseOp(p, k))], Begin(1, Deliver(d)));
    BeginsMakePair(s, p, k, d);
  }

  /** A message that a reconciliation will apply to a program with an ACTIVE reservation k. */
  predicate Meets(db: Db, d: Delivery, k: InvoiceId) {
    && d.event.Reconciliation?
    && !SlotRecorded(db.processed, d.slot) && !MessageRecorded(db.processed, d.event.message)
    && d.event.limit.Whole? && d.event.declared.Whole? && d.event.program in db.accounts
    && NeedsRows(db.accounts[d.event.program].program, false, d.event)
    && k in db.accounts[d.event.program].rows && db.accounts[d.event.program].rows[k].status.Active?
  }

  /** The release holds the reservation, the reconciliation the program, and each needs the other's. */
  lemma PairEmbraced(s: Sys, d: Delivery, k: InvoiceId)
    requires Meets(s.db, d, k)
    ensures
      var p := d.event.program;
      var end := Pair(s, p, k, d, RowHeld(s.db.accounts[p].rows[k]), Holding(s.db.accounts[p].program, false));
      Next(end, 0).Blocked? && Next(end, 1).Blocked?
  {
    var p := d.event.program;
    var end := Pair(s, p, k, d, RowHeld(s.db.accounts[p].rows[k]), Holding(s.db.accounts[p].program, false));
    assert Holds(end.txs[1], ProgramLock(p));
    assert Holds(end.txs[0], RowLock(p, k));
  }

  /** The phases the two go through, each undisturbed by the other. */
  lemma PairPhases(s: Sys, d: Delivery, k: InvoiceId)
    requires Meets(s.db, d, k)
    ensures
      var p := d.event.program;
      var held := RowHeld(s.db.accounts[p].rows[k]);
      && NextRelease(Pair(s, p, k, d, Begun, Begun), 0) == Moves(held)
      && NextDelivery(Pair(s, p, k, d, held, Begun), 1) == Moves(SlotUnseen)
      && NextDelivery(Pair(s, p, k, d, held, SlotUnseen), 1) == Moves(Unseen)
      && NextDelivery(Pair(s, p, k, d, held, Unseen), 1) == Moves(Holding(s.db.accounts[p].program, false))
  {
  }

  /**
    The limit of the lock order: whenever a reconciliation that will be applied meets a
    release of an ACTIVE reservation of its program, the two can end up waiting for each other.
   */
  lemma ReleaseAndReconciliationCanDeadlock(s: Sys, d: Delivery, k: InvoiceId)
    requires Idle(s) && Meets(s.db, d, k)
    ensures
      var end := RunSchedule(s, Embrace(d.event.program, k, d));
      && end.txs.Keys == {0, 1}
      && Next(end, 0).Blocked? && Next(end, 1).Blocked?
  {
    var p := d.event.program;
    var a := s.db.accounts[p];
    var end := Pair(s, p, k, d, RowHeld(a.rows[k]), Holding(a.program, false));
    assert RunSchedule(s, Embrace(p, k, d)) == end by {
      PairRuns(s, d, k);
    }
    PairEmbraced(s, d, k);
  }

  lemma {:induction false} PairRuns(s: Sys, d: Delivery, k: InvoiceId)
    requires Idle(s) && Meets(s.db, d, k)
    ensures
      var p := d.event.program;
      var a := s.db.accounts[p];
      RunSchedule(s, Embrace(p, k, d)) == Pair(s, p, k, d, RowHeld(a.rows[k]), Holding(a.program, false))
  {
    var p := d.event.program;
    var held := RowHeld(s.db.accounts[p].rows[k]);
    var turns := [] + [Begin(0, ReleaseOp(p, k))] + [Begin(1, Deliver(d))];
    PairPhases(s, d, k);
    BothBegin(s, p, k, d);
    PairMoves(s, p, k, d, Begun, Begun);
    PairMoves(s, p, k, d, held, Begun);
    PairMoves(s, p, k, d, held, SlotUnseen);
    PairMoves(s, p, k, d, held, Unseen);
    RunThen(s, turns, Advance(0));
    RunThen(s, turns + [Advance(0)], Advance(1));
    RunThen(s, turns + [Advance(0)] + [Advance(1)], Advance(1));
    RunThen(s, turns + [Advance(0)] + [Advance(1)] + [Advance(1)], Advance(1));
    assert turns + [Advance(0)] + [Advance(1)] + [Advance(1)] + [Advance(1)] == Embrace(p, k, d);
  }
}
