/**
  A transaction with nobody beside it goes through its steps to the end, and commits exactly
  when the transaction as a whole commits: no step aborts, or waits, without need.
 */
module Alone {
  import opened Wrappers
  import opened Tables
  import opened Messages
  import opened Transactions
  import opened Interleaving
  import opened Serializability

  /** The transaction at some phase, and nobody else. */
  function Solo(db: Db, t: TxId, op: Op, phase: Phase): Sys {
    Sys(db, map[t := Tx(op, phase)], [])
  }

  /** What the transaction knows, when nobody else has committed since it began. */
  predicate SoloOk(db: Db, op: Op, phase: Phase) {
    && TxOk(db, Tx(op, phase))
    && (op.Deliver? && !phase.Begun? && !phase.Nothing? ==> !SlotRecorded(db.processed, op.delivery.slot))
    && (op.Deliver? && !phase.Begun? && !phase.Nothing? && !phase.SlotUnseen? ==>
          !MessageRecorded(db.processed, op.delivery.event.message))
    && (op.Deliver? && phase.NoProgram? ==> op.delivery.event.program !in db.accounts)
    && (op.ReleaseOp? && phase.Nothing? ==> Release(db, op.program, op.invoice).Done?)
  }

  function Stage(phase: Phase): nat {
    match phase
    case Begun => 0
    case SlotUnseen => 1
    case RowHeld(_) => 1
    case Unseen => 2
    case BothHeld(_) => 2
    case NoProgram => 3
    case Holding(_, _) => 4
    case InvoiceFree(_) => 5
    case SnapshotHeld(_, _, _) => 5
    case GuardFailed(_) => 6
    case Written(_, _, _, _) => 6
    case RunStored(_, _, _, _, _) => 7
    case Marked(_, _, _, _, _, _) => 8
    case Nothing(_) => 9
  }

  lemma AllFree(db: Db, t: TxId, op: Op, phase: Phase)
    ensures forall r :: Free(Solo(db, t, op, phase), t, r)
  {
  }

  lemma SoloMoves(db: Db, t: TxId, op: Op, phase: Phase)
    requires SoloOk(db, op, phase)
    ensures
      var s := Solo(db, t, op, phase);
      && !Next(s, t).Blocked?
      && (Next(s, t).Moves? ==> SoloOk(db, op, Next(s, t).phase) && Stage(phase) < Stage(Next(s, t).phase))
  {
    AllFree(db, t, op, phase);
    var s := Solo(db, t, op, phase);
    if Next(s, t).Moves? {
      MoveKeepsTx(s, t);
    }
  }

  lemma CreateAborts(db: Db, t: TxId, op: Op, phase: Phase)
    requires op.CreateOp? && SoloOk(db, op, phase) && Next(Solo(db, t, op, phase), t).Aborts?
    ensures Atomic(db, op).Aborted?
  {
  }

  lemma ReleaseAborts(db: Db, t: TxId, op: Op, phase: Phase)
    requires op.ReleaseOp? && SoloOk(db, op, phase) && Next(Solo(db, t, op, phase), t).Aborts?
    ensures Atomic(db, op).Aborted?
  {
  }

  lemma DeliveryAborts(db: Db, t: TxId, op: Op, phase: Phase)
    requires op.Deliver? && SoloOk(db, op, phase) && Next(Solo(db, t, op, phase), t).Aborts?
    ensures Atomic(db, op).Aborted?
  {
    var e := op.delivery.event;
    AllFree(db, t, op, phase);
    if (phase.Holding? || phase.SnapshotHeld?) && !phase.created {
      var a := db.accounts[e.program];
      LocalIsCurrent(a, if NeedsRows(a.program, false, e) then a.rows else map[], e);
    }
  }

  lemma SoloAborts(db: Db, t: TxId, op: Op, phase: Phase)
    requires SoloOk(db, op, phase) && Next(Solo(db, t, op, phase), t).Aborts?
    ensures Atomic(db, op).Aborted?
  {
    match op
    case CreateOp(_, _) => CreateAborts(db, t, op, phase);
    case ReleaseOp(_, _) => ReleaseAborts(db, t, op, phase);
    case Deliver(_) => DeliveryAborts(db, t, op, phase);
  }

  lemma ApiCommits(db: Db, t: TxId, op: Op, phase: Phase)
    requires !op.Deliver? && SoloOk(db, op, phase) && Next(Solo(db, t, op, phase), t).Commits?
    ensures Atomic(db, op).Committed? && Next(Solo(db, t, op, phase), t).db == After(db, op)
  {
    ApiCommitIsAtomic(Solo(db, t, op, phase), t);
  }

  lemma DeliveryCommits(db: Db, t: TxId, d: Delivery, phase: Phase)
    requires SoloOk(db, Deliver(d), phase) && Next(Solo(db, t, Deliver(d), phase), t).Commits?
    ensures Handle(db, d).Committed? && Next(Solo(db, t, Deliver(d), phase), t).db == Handle(db, d).db
  {
    if phase.Marked? {
      MarkedCommits(db, d, phase);
    } else {
      assert phase.Nothing?;
    }
  }

  lemma MarkedCommits(db: Db, d: Delivery, phase: Phase)
    requires phase.Marked? && SoloOk(db, Deliver(d), phase)
    ensures Handle(db, d).Committed? && CommitTreasury(db, d, phase).Commits?
    ensures CommitTreasury(db, d, phase).db == Handle(db, d).db
  {
    assert phase.mark;
    assert WorkFor(Lookup(db.accounts, d.event.program), d.event).Work?;
  }

  /** The end: the state of the transaction run as a whole, and its commit if it commits. */
  function Outcome(db: Db, op: Op): Sys {
    Sys(After(db, op), map[], if Atomic(db, op).Committed? then [op] else [])
  }

  function Rounds(s: Sys, t: TxId, n: nat): Sys
    decreases n
  {
    if n == 0 then s else Rounds(Step(s, Advance(t)), t, n - 1)
  }

  lemma {:induction false} EndedStays(s: Sys, t: TxId, n: nat)
    requires t !in s.txs
    ensures Rounds(s, t, n) == s
    decreases n
  {
    if n > 0 {
      EndedStays(s, t, n - 1);
    }
  }

  lemma SoloEnds(db: Db, t: TxId, op: Op, phase: Phase)
    requires SoloOk(db, op, phase) && !Next(Solo(db, t, op, phase), t).Moves?
    ensures Step(Solo(db, t, op, phase), Advance(t)) == Outcome(db, op)
  {
    SoloMoves(db, t, op, phase);
    if Next(Solo(db, t, op, phase), t).Aborts? {
      SoloAborts(db, t, op, phase);
    } else if op.Deliver? {
      DeliveryCommits(db, t, op.delivery, phase);
    } else {
      ApiCommits(db, t, op, phase);
    }
    assert map[t := Tx(op, phase)] - {t} == map[];
  }

  lemma SoloGoesOn(db: Db, t: TxId, op: Op, phase: Phase)
    requires Next(Solo(db, t, op, phase), t).Moves?
    ensures Step(Solo(db, t, op, phase), Advance(t)) == Solo(db, t, op, Next(Solo(db, t, op, phase), t).phase)
  {
    assert map[t := Tx(op, phase)][t := Tx(op, Next(Solo(db, t, op, phase), t).phase)]
        == map[t := Tx(op, Next(Solo(db, t, op, phase), t).phase)];
  }

  lemma {:induction false} SoloFinishes(db: Db, t: TxId, op: Op, phase: Phase, n: nat)
    requires SoloOk(db, op, phase) && n + Stage(phase) >= 10
    ensures Rounds(Solo(db, t, op, phase), t, n) == Outcome(db, op)
    decreases n
  {
    if Next(Solo(db, t, op, phase), t).Moves? {
      SoloMoves(db, t, op, phase);
      SoloGoesOn(db, t, op, phase);
      SoloFinishes(db, t, op, Next(Solo(db, t, op, phase), t).phase, n - 1);
    } else {
      SoloEnds(db, t, op, phase);
      EndedStays(Outcome(db, op), t, n - 1);
    }
  }

  /** The transaction begins, and is then given n turns. */
  function AloneTurns(t: TxId, op: Op, n: nat): seq<Turn> {
    [Begin(t, op)] + seq(n, _ => Advance(t))
  }

  lemma {:induction false} RoundsAreTurns(s: Sys, turns: seq<Turn>, t: TxId, n: nat)
    ensures RunSchedule(s, turns + seq(n, _ => Advance(t))) == Rounds(RunSchedule(s, turns), t, n)
    decreases n
  {
    if n == 0 {
      assert turns + seq(0, _ => Advance(t)) == turns;
    } else {
      RunThen(s, turns, Advance(t));
      RoundsAreTurns(s, turns + [Advance(t)], t, n - 1);
      assert turns + [Advance(t)] + seq(n - 1, _ => Advance(t)) == turns + seq(n, _ => Advance(t));
    }
  }

  /** Ten turns are enough for any transaction: it commits iff it commits as a whole, with the same state. */
  lemma CommitsIffAtomic(db: Db, t: TxId, op: Op)
    ensures
      var end := RunSchedule(Sys(db, map[], []), AloneTurns(t, op, 10));
      && end.txs == map[]
      && end.db == After(db, op)
      && (end.committed == [op] <==> Atomic(db, op).Committed?)
      && (end.committed == [] <==> Atomic(db, op).Aborted?)
  {
    var idle := Sys(db, map[], []);
    RoundsAreTurns(idle, [Begin(t, op)], t, 10);
    assert [Begin(t, op)][..0] == [];
    assert RunSchedule(idle, [Begin(t, op)]) == Solo(db, t, op, Begun);
    SoloFinishes(db, t, op, Begun, 10);
  }
}
