/** What Runs proves of transactions run one after another, under every interleaving. */
module InterleavedRuns {
  import opened Tables
  import opened Snapshot
  import opened Transactions
  import opened Accounts
  import opened Runs
  import opened Interleaving
  import opened Serializability

  /** The invariant of all tables, and the balance of the aggregates. */
  lemma {:induction false} InterleavedKept(s: Sys, turns: seq<Turn>, log: Log)
    requires Idle(s) && Initial(s.db) && AllConform(turns, log)
    ensures
      var end := RunSchedule(s, turns);
      && DbKept(end.db)
      && (CoveringRun(s.db, end.committed) ==> AllBalanced(end.db))
  {
    Serializable(s, turns, log);
    var ops := RunSchedule(s, turns).committed;
    Reachable(s.db, ops);
    if CoveringRun(s.db, ops) {
      AggregateAgrees(s.db, ops);
    }
  }

  /** Between any two moments of an interleaving a RELEASED row does not change. */
  lemma {:induction false} ReleaseIsFinalInterleaved(s: Sys, turns: seq<Turn>, log: Log, n: nat, p: ProgramId, k: InvoiceId)
    requires Idle(s) && DbOk(s.db, log) && AllConform(turns, log) && n <= |turns|
    requires p in RunSchedule(s, turns[..n]).db.accounts
    requires HitsReleased(RunSchedule(s, turns[..n]).db.accounts[p].rows, k)
    ensures
      var earlier, end := RunSchedule(s, turns[..n]).db, RunSchedule(s, turns).db;
      && p in end.accounts && k in end.accounts[p].rows
      && end.accounts[p].rows[k] == earlier.accounts[p].rows[k]
  {
    if n == |turns| {
      assert turns[..n] == turns;
    } else {
      var init, turn := turns[..|turns| - 1], turns[|turns| - 1];
      assert forall i | 0 <= i < |init| :: init[i] == turns[i];
      assert init[..n] == turns[..n];
      ReleaseIsFinalInterleaved(s, init, log, n, p, k);
      var before := RunSchedule(s, init);
      Serializable(s, init, log);
      if turn.Advance? && turn.t in before.txs && Next(before, turn.t).Commits? {
        CommitIsAtomic(before, turn.t, log);
        StepKeepsReleased(before.db, before.txs[turn.t].op, p, k);
      }
    }
  }

  /** The reserved amount is the ledger's account of it plus all that the release clamp withheld. */
  lemma {:induction false} InterleavedLedger(s: Sys, turns: seq<Turn>, log: Log, p: ProgramId)
    requires Idle(s) && Initial(s.db) && AllConform(turns, log)
    requires p in RunSchedule(s, turns).db.accounts
    ensures
      var end := RunSchedule(s, turns);
      var a := end.db.accounts[p];
      a.program.reserved == ReservedFold(a.ledger) + ClampedTotal(s.db, end.committed, p)
  {
    Serializable(s, turns, log);
    LedgerConservation(s.db, RunSchedule(s, turns).committed, p);
  }

  /** The limit is what the ledger and the message that created the program explain. */
  lemma {:induction false} InterleavedLimit(s: Sys, turns: seq<Turn>, log: Log, p: ProgramId)
    requires Idle(s) && Initial(s.db) && AllConform(turns, log)
    requires p !in s.db.accounts && p in RunSchedule(s, turns).db.accounts
    ensures
      var end := RunSchedule(s, turns);
      && end.db == Exec(s.db, end.committed)
      && var origin := Origin(s.db, end.committed, p);
      && origin.limit.Whole?
      && UnexplainedLimit(end.db.accounts[p]) == if origin.CapacityUpdate? then 0 else origin.limit.n
  {
    Serializable(s, turns, log);
    LimitIsExplained(s.db, RunSchedule(s, turns).committed, p);
  }

  /** Until a reconciliation rewrites it, an API row's amount is the conversion of what the row stores. */
  lemma {:induction false} InterleavedFaithful(s: Sys, turns: seq<Turn>, log: Log, p: ProgramId, k: InvoiceId)
    requires Idle(s) && Initial(s.db) && AllConform(turns, log)
    requires p in RunSchedule(s, turns).db.accounts && k in RunSchedule(s, turns).db.accounts[p].rows
    requires RunSchedule(s, turns).db.accounts[p].rows[k].source == Api
    requires !EverRewritten(s.db, RunSchedule(s, turns).committed, p, k)
    ensures Faithful(RunSchedule(s, turns).db.accounts[p].rows[k])
  {
    Serializable(s, turns, log);
    FxSnapshotIsFaithful(s.db, RunSchedule(s, turns).committed, p, k);
  }

  /** What was committed stays committed, in the same order. */
  lemma {:induction false} CommittedGrows(s: Sys, turns: seq<Turn>, n: nat)
    requires n <= |turns|
    ensures RunSchedule(s, turns[..n]).committed <= RunSchedule(s, turns).committed
  {
    if n == |turns| {
      assert turns[..n] == turns;
    } else {
      assert turns[..|turns| - 1][..n] == turns[..n];
      CommittedGrows(s, turns[..|turns| - 1], n);
    }
  }

  /** Between two moments without the commit of a delivery, a program's overrun does not grow. */
  lemma {:induction false} InterleavedOverrun(s: Sys, turns: seq<Turn>, log: Log, n: nat, p: ProgramId)
    requires Idle(s) && Initial(s.db) && AllConform(turns, log) && n <= |turns|
    requires p in RunSchedule(s, turns[..n]).db.accounts
    requires forall i | |RunSchedule(s, turns[..n]).committed| <= i < |RunSchedule(s, turns).committed| ::
               !RunSchedule(s, turns).committed[i].Deliver?
    ensures
      var earlier, end := RunSchedule(s, turns[..n]).db, RunSchedule(s, turns).db;
      && p in end.accounts
      && Overrun(end.accounts[p].program) <= Overrun(earlier.accounts[p].program)
  {
    if n == |turns| {
      assert turns[..n] == turns;
    } else {
      var init, turn := turns[..|turns| - 1], turns[|turns| - 1];
      assert forall i | 0 <= i < |init| :: init[i] == turns[i];
      assert init[..n] == turns[..n];
      var before := RunSchedule(s, init);
      CommittedGrows(s, init, n);
      var committed := RunSchedule(s, turns).committed;
      assert before.committed <= committed;
      if turn.Advance? && turn.t in before.txs && Next(before, turn.t).Commits? {
        assert committed[|before.committed|] == before.txs[turn.t].op;
      }
      InterleavedOverrun(s, init, log, n, p);
      OverrunStep(s, init, turn, log, p);
    }
  }

  lemma {:induction false} OverrunStep(s: Sys, turns: seq<Turn>, turn: Turn, log: Log, p: ProgramId)
    requires Idle(s) && Initial(s.db) && AllConform(turns, log)
    requires p in RunSchedule(s, turns).db.accounts
    requires
      var before := RunSchedule(s, turns);
      turn.Advance? && turn.t in before.txs && Next(before, turn.t).Commits? ==> !before.txs[turn.t].op.Deliver?
    ensures
      var before, end := RunSchedule(s, turns).db, Step(RunSchedule(s, turns), turn).db;
      && p in end.accounts
      && Overrun(end.accounts[p].program) <= Overrun(before.accounts[p].program)
  {
    var before := RunSchedule(s, turns);
    Serializable(s, turns, log);
    InterleavedKept(s, turns, log);
    if turn.Advance? && turn.t in before.txs && Next(before, turn.t).Commits? {
      CommitIsAtomic(before, turn.t, log);
      ApiStepCannotOverrun(before.db, before.txs[turn.t].op, p);
    }
  }
}
