/** At-least-once delivery has the effect of exactly-once delivery. */
module ExactlyOnce {
  import opened Tables
  import opened Messages
  import opened Transactions
  import opened Runs
  import opened Interleaving
  import opened Serializability

  // ---------- racing consumers ----------

  predicate DeliversMessage(op: Op, m: MessageId) {
    op.Deliver? && op.delivery.event.message == m
  }

  /** Recorded messages stay recorded. */
  lemma RecordedStays(db: Db, op: Op)
    ensures db.processed <= After(db, op).processed
  {
  }

  /** A delivery that does not abort leaves its message recorded. */
  lemma DeliveredIsRecorded(db: Db, d: Delivery, log: Log)
    requires DbOk(db, log) && d == log(d.slot) && Handle(db, d).Committed?
    ensures MessageRecorded(Handle(db, d).db.processed, d.event.message)
  {
    if SlotRecorded(db.processed, d.slot) {
      var q :| q in db.processed && q.slot == d.slot;
      assert q.message == d.event.message;
    } else if !MessageRecorded(db.processed, d.event.message) {
      assert Recorded(d) in Handle(db, d).db.processed;
    }
  }

  lemma {:induction false} CommittedIsRecorded(db: Db, ops: seq<Op>, log: Log, i: nat)
    requires DbOk(db, log) && CommittedOk(db, ops)
    requires forall j | 0 <= j < |ops| :: Conforms(ops[j], log)
    requires i < |ops| && ops[i].Deliver?
    ensures DbOk(Exec(db, ops), log)
    ensures MessageRecorded(Exec(db, ops).processed, ops[i].delivery.event.message)
  {
    var init, last := ops[..|ops| - 1], ops[|ops| - 1];
    ExecOk(db, init, log);
    StepKeepsDbOk(Exec(db, init), last, log);
    if i == |init| {
      DeliveredIsRecorded(Exec(db, init), last.delivery, log);
    } else {
      CommittedIsRecorded(db, init, log, i);
      RecordedStays(Exec(db, init), last);
      var q :| q in Exec(db, init).processed && q.message == ops[i].delivery.event.message;
      assert q in Exec(db, ops).processed;
    }
  }

  lemma {:induction false} ExecOk(db: Db, ops: seq<Op>, log: Log)
    requires DbOk(db, log)
    requires forall j | 0 <= j < |ops| :: Conforms(ops[j], log)
    ensures DbOk(Exec(db, ops), log)
  {
    if ops != [] {
      ExecOk(db, ops[..|ops| - 1], log);
      StepKeepsDbOk(Exec(db, ops[..|ops| - 1]), ops[|ops| - 1], log);
    }
  }

  lemma {:induction false} CommittedPrefix(db: Db, ops: seq<Op>, j: nat)
    requires CommittedOk(db, ops) && j <= |ops|
    ensures CommittedOk(db, ops[..j])
  {
    if j < |ops| {
      CommittedPrefix(db, ops[..|ops| - 1], j);
      assert ops[..|ops| - 1][..j] == ops[..j];
    } else {
      assert ops[..j] == ops;
    }
  }

  /** In a committed run, a later delivery of a message changes nothing. */
  lemma RepeatIsIdle(db: Db, ops: seq<Op>, log: Log, i: nat, j: nat)
    requires DbOk(db, log) && CommittedOk(db, ops)
    requires forall l | 0 <= l < |ops| :: Conforms(ops[l], log)
    requires i < j < |ops| && ops[i].Deliver? && DeliversMessage(ops[j], ops[i].delivery.event.message)
    ensures Exec(db, ops[..j + 1]) == Exec(db, ops[..j])
  {
    CommittedPrefix(db, ops, j);
    CommittedIsRecorded(db, ops[..j], log, i);
    assert ops[..j + 1][..j] == ops[..j];
  }

  /**
    Consumers racing on one message id, at the same offset or another, with the same
    payload or another, for the same program or another: only the first commit has an effect.
   */
  lemma {:induction false} AtMostOnce(s: Sys, turns: seq<Turn>, log: Log, i: nat, j: nat)
    requires Idle(s) && DbOk(s.db, log) && AllConform(turns, log)
    requires i < j < |RunSchedule(s, turns).committed|
    requires RunSchedule(s, turns).committed[i].Deliver?
    requires DeliversMessage(RunSchedule(s, turns).committed[j], RunSchedule(s, turns).committed[i].delivery.event.message)
    ensures
      var ops := RunSchedule(s, turns).committed;
      Exec(s.db, ops[..j + 1]) == Exec(s.db, ops[..j])
  {
    Serializable(s, turns, log);
    RepeatIsIdle(s.db, RunSchedule(s, turns).committed, log, i, j);
  }

  // ---------- repeats erased ----------

  predicate Delivered(ops: seq<Op>, m: MessageId) {
    exists i | 0 <= i < |ops| :: DeliversMessage(ops[i], m)
  }

  /** The run without the deliveries that repeat a message id. */
  function Once(ops: seq<Op>): seq<Op> {
    if ops == [] then []
    else
      var earlier, last := Once(ops[..|ops| - 1]), ops[|ops| - 1];
      if last.Deliver? && Delivered(earlier, last.delivery.event.message) then earlier else earlier + [last]
  }

  /** The erased run holds each message at most once. */
  lemma {:induction false} OnceIsOnce(ops: seq<Op>, i: nat, j: nat)
    requires i < j < |Once(ops)| && Once(ops)[i].Deliver? && Once(ops)[j].Deliver?
    ensures Once(ops)[i].delivery.event.message != Once(ops)[j].delivery.event.message
  {
    var earlier := Once(ops[..|ops| - 1]);
    if j < |earlier| {
      OnceIsOnce(ops[..|ops| - 1], i, j);
    } else {
      assert DeliversMessage(earlier[i], earlier[i].delivery.event.message);
    }
  }

  /** Every delivery of the erased run has left its message recorded. */
  predicate OnceRecorded(ops: seq<Op>, db: Db) {
    forall i | 0 <= i < |ops| && ops[i].Deliver? :: MessageRecorded(db.processed, ops[i].delivery.event.message)
  }

  /** A delivery whose message is in the erased run already changes nothing; another operation joins it. */
  lemma ErasedStep(db: Db, earlier: seq<Op>, op: Op, log: Log)
    requires DbOk(Exec(db, earlier), log) && Conforms(op, log) && OnceRecorded(earlier, Exec(db, earlier))
    requires op.Deliver? ==> Atomic(Exec(db, earlier), op).Committed?
    ensures
      var next := After(Exec(db, earlier), op);
      var more := if op.Deliver? && Delivered(earlier, op.delivery.event.message) then earlier else earlier + [op];
      next == Exec(db, more) && OnceRecorded(more, next)
  {
    var now := Exec(db, earlier);
    RecordedStays(now, op);
    ExecAppend(db, earlier, op);
    if op.Deliver? {
      if Delivered(earlier, op.delivery.event.message) {
        assert MessageRecorded(now.processed, op.delivery.event.message);
      } else {
        DeliveredIsRecorded(now, op.delivery, log);
      }
    }
  }

  /** Erasing repeated messages from a committed run does not change where it ends. */
  lemma {:induction false} ErasingRepeats(db: Db, ops: seq<Op>, log: Log)
    requires DbOk(db, log) && CommittedOk(db, ops)
    requires forall i | 0 <= i < |ops| :: Conforms(ops[i], log)
    ensures Exec(db, Once(ops)) == Exec(db, ops) && OnceRecorded(Once(ops), Exec(db, ops))
  {
    if ops != [] {
      var init, op := ops[..|ops| - 1], ops[|ops| - 1];
      assert forall i | 0 <= i < |init| :: init[i] == ops[i];
      ErasingRepeats(db, init, log);
      ExecOk(db, init, log);
      ErasedStep(db, Once(init), op, log);
    }
  }

  /**
    Under every interleaving of racing consumers and API transactions the tables end as in
    the run, one transaction after another, that delivers each message once (OnceIsOnce).
   */
  lemma InterleavedExactlyOnce(s: Sys, turns: seq<Turn>, log: Log)
    requires Idle(s) && DbOk(s.db, log) && AllConform(turns, log)
    ensures RunSchedule(s, turns).db == Exec(s.db, Once(RunSchedule(s, turns).committed))
  {
    Serializable(s, turns, log);
    ErasingRepeats(s.db, RunSchedule(s, turns).committed, log);
  }
}
