/**
  What a create knows while it holds the program row: nothing changes between its locked
  read, the guarded UPDATE and, when that matches no row, the second read for the report.
 */
module Guards {
  import opened Tables
  import opened Money
  import opened Programs
  import opened Transactions
  import opened Accounts
  import opened Interleaving
  import opened Serializability
  import opened InterleavedRuns

  /** At the UPDATE the row is the one read under the lock, and its guard tests the capacity. */
  lemma GuardTestsCapacity(s: Sys, turns: seq<Turn>, log: Log, t: TxId)
    requires Idle(s) && Initial(s.db) && AllConform(turns, log)
    requires t in RunSchedule(s, turns).txs
    requires RunSchedule(s, turns).txs[t].op.CreateOp? && RunSchedule(s, turns).txs[t].phase.InvoiceFree?
    ensures
      var end := RunSchedule(s, turns);
      var tx := end.txs[t];
      && tx.op.req.program in end.db.accounts
      && var current := end.db.accounts[tx.op.req.program].program;
      && current == tx.phase.program
      && current.status == ProgramActive && current.reserved <= current.limit
      && (forall amount :: Reserve(current, amount).None? <==> Available(current) < amount)
  {
    Serializable(s, turns, log);
    InterleavedKept(s, turns, log);
    var end := RunSchedule(s, turns);
    assert TxOk(end.db, end.txs[t]);
    assert Kept(end.db.accounts[end.txs[t].op.req.program]);
  }

  /**
    When the UPDATE matched no row, the second read still finds the program ACTIVE, with less
    capacity than was asked for: the report is INSUFFICIENT_CAPACITY, unless an amount in it
    is no safe number, and the create run alone would report the same.
   */
  lemma FailedGuardMeansCapacity(s: Sys, turns: seq<Turn>, log: Log, t: TxId)
    requires Idle(s) && Initial(s.db) && AllConform(turns, log)
    requires t in RunSchedule(s, turns).txs
    requires RunSchedule(s, turns).txs[t].op.CreateOp? && RunSchedule(s, turns).txs[t].phase.GuardFailed?
    ensures
      var end := RunSchedule(s, turns);
      var tx := end.txs[t];
      var requested := tx.phase.requested;
      && tx.op.req.program in end.db.accounts
      && var a := end.db.accounts[tx.op.req.program];
      && a.program.status == ProgramActive
      && Available(a.program) < requested
      && CreateOn(a, tx.op.req, tx.op.found)
         == Failed(if SafeNumber(Available(a.program)) && SafeNumber(requested) then InsufficientCapacity
                   else UnsafeNumber)
  {
    Serializable(s, turns, log);
    InterleavedKept(s, turns, log);
    var end := RunSchedule(s, turns);
    assert TxOk(end.db, end.txs[t]);
    assert Kept(end.db.accounts[end.txs[t].op.req.program]);
  }
}
